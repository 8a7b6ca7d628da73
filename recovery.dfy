/**
 * The four-stage recovery sequence `Shell._multi_stage_interrupt` (core/shell.py).
 * The keystrokes themselves and the responsiveness probes are I/O: each stage's
 * outcome is an input saying whether its sends raised or, if not, whether the probe
 * that followed them answered.
 */
module Recovery {
  import opened Wrappers
  import opened Text

  datatype StageOutcome = SendFailed | Probed(responsive: bool)

  /** Labels appended to `stages`, one per keystroke stage; the fourth stage (a bare
      newline) has none. */
  const StageLabels: seq<string> := ["Sent Ctrl+C", "Sent Ctrl+D", "Sent Ctrl+Z + kill"]

  /** The number of stages. */
  const StageCount: nat := 4

  /** The first stage whose probe answered. */
  function FirstRecoveredFrom(outcomes: seq<StageOutcome>, i: nat): (r: Option<nat>)
    requires i <= |outcomes|
    ensures r.Some? ==> i <= r.value < |outcomes| && outcomes[r.value] == Probed(true)
    ensures r.Some? ==> forall j :: i <= j < r.value ==> outcomes[j] != Probed(true)
    ensures r.None? ==> forall j :: i <= j < |outcomes| ==> outcomes[j] != Probed(true)
    decreases |outcomes| - i
  {
    if i == |outcomes| then None
    else if outcomes[i] == Probed(true) then Some(i)
    else FirstRecoveredFrom(outcomes, i + 1)
  }

  function FirstRecovered(outcomes: seq<StageOutcome>): Option<nat> {
    FirstRecoveredFrom(outcomes, 0)
  }

  /** How many stages were started: up to and including the first that recovered. */
  function Attempted(outcomes: seq<StageOutcome>): nat {
    match FirstRecovered(outcomes)
    case Some(k) => k + 1
    case None => |outcomes|
  }

  /** The labels of the first `n` stages whose sends went through, in stage order. */
  function Labels(outcomes: seq<StageOutcome>, n: nat): seq<string>
    requires n <= |outcomes|
  {
    if n == 0 then []
    else
      var earlier := Labels(outcomes, n - 1);
      if n - 1 < |StageLabels| && outcomes[n - 1].Probed? then earlier + [StageLabels[n - 1]] else earlier
  }

  function RecoveredMessage(stages: seq<string>): string {
    "Recovery: " + Join(stages, ", ") + " - Shell recovered."
  }

  function FailedMessage(stages: seq<string>): string {
    "Recovery FAILED: " + Join(stages, ", ") + " - Shell may be unusable. Recommend stop_shell + start_shell."
  }

  /** The message for a whole run of the sequence. */
  function RecoveryMessage(outcomes: seq<StageOutcome>): string {
    var stages := Labels(outcomes, Attempted(outcomes));
    if FirstRecovered(outcomes).Some? then RecoveredMessage(stages) else FailedMessage(stages)
  }

  /** The four stages in source order; returns the message and the number of stages
      started. */
  method MultiStageInterrupt(outcomes: seq<StageOutcome>) returns (message: string, attempted: nat)
    requires |outcomes| == StageCount
    ensures attempted == Attempted(outcomes)
    ensures message == RecoveryMessage(outcomes)
  {
    var stages: seq<string> := [];
    // Stage 1: Ctrl+C
    if outcomes[0].Probed? {
      stages := stages + ["Sent Ctrl+C"];
      if outcomes[0].responsive {
        assert Labels(outcomes, 1) == stages;
        return RecoveredMessage(stages), 1;
      }
    }
    assert stages == Labels(outcomes, 1);
    // Stage 2: Ctrl+D
    if outcomes[1].Probed? {
      stages := stages + ["Sent Ctrl+D"];
      if outcomes[1].responsive {
        return RecoveredMessage(stages), 2;
      }
    }
    assert stages == Labels(outcomes, 2);
    // Stage 3: Ctrl+Z, then kill the stopped job
    if outcomes[2].Probed? {
      stages := stages + ["Sent Ctrl+Z + kill"];
      if outcomes[2].responsive {
        return RecoveredMessage(stages), 3;
      }
    }
    assert stages == Labels(outcomes, 3);
    // Stage 4: a bare newline
    if outcomes[3] == Probed(true) {
      assert Labels(outcomes, 4) == stages;
      return RecoveredMessage(stages), 4;
    }
    assert Labels(outcomes, 4) == stages;
    message := FailedMessage(stages);
    attempted := 4;
  }

  // ---------------------------------------------------------------------------
  // Properties

  /** "Recovery FAILED" is reported exactly when no probe answered; otherwise the
      message reports a recovered shell. */
  lemma FailedIffNoProbeAnswered(outcomes: seq<StageOutcome>)
    ensures StartsWith(RecoveryMessage(outcomes), "Recovery FAILED")
        <==> forall j :: 0 <= j < |outcomes| ==> outcomes[j] != Probed(true)
  {
    var m := RecoveryMessage(outcomes);
    if FirstRecovered(outcomes).Some? {
      assert m[8] == ':';
      assert "Recovery FAILED"[8] == ' ';
    } else {
      assert m[..15] == "Recovery FAILED";
    }
  }

  /** The sequence stops at the first stage whose probe answers: no later stage is
      started. */
  lemma StopsAtFirstRecovery(outcomes: seq<StageOutcome>, k: nat)
    requires k < |outcomes| && outcomes[k] == Probed(true)
    requires forall j :: 0 <= j < k ==> outcomes[j] != Probed(true)
    ensures Attempted(outcomes) == k + 1
    ensures RecoveryMessage(outcomes) == RecoveredMessage(Labels(outcomes, k + 1))
  {
    var r := FirstRecovered(outcomes);
    assert r.Some? && r.value <= k;
  }

  /** When every send goes through, the labels name the stages in order Ctrl+C,
      Ctrl+D, Ctrl+Z + kill. */
  lemma {:induction false} LabelsInOrder(outcomes: seq<StageOutcome>, n: nat)
    requires n <= |outcomes|
    requires forall j :: 0 <= j < n ==> outcomes[j].Probed?
    ensures Labels(outcomes, n) == StageLabels[..if n < |StageLabels| then n else |StageLabels|]
  {
    if n > 0 {
      LabelsInOrder(outcomes, n - 1);
    }
  }

  /** Labels are only those of stages whose sends went through, so there are at most
      as many as stages started, and never more than three. */
  lemma {:induction false} LabelsBound(outcomes: seq<StageOutcome>, n: nat)
    requires n <= |outcomes|
    ensures |Labels(outcomes, n)| <= n && |Labels(outcomes, n)| <= |StageLabels|
    ensures (forall j :: 0 <= j < n ==> outcomes[j] == SendFailed) ==> Labels(outcomes, n) == []
  {
    if n > 0 {
      LabelsBound(outcomes, n - 1);
      assert |Labels(outcomes, n - 1)| <= n - 1;
    }
  }
}
