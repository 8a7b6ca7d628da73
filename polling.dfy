/**
 * The progress-monitoring loop of `Shell.run_command` (core/shell.py), with the
 * clock and the non-blocking reads replaced by a trace of polls. Each poll records
 * the clock at the top of the loop, the text the read returned ("" when nothing
 * arrived) and the clock just after the read. Clock values are milliseconds.
 */
module Polling {
  import opened Text
  import opened Config
  import opened Classify

  datatype Poll = Poll(clock: int, data: string, clockAfter: int)

  /** What the loop knows before it starts: the command's classification, its
      timeout in seconds, the END marker it waits for, and the start time. */
  datatype PollConfig = PollConfig(slow: bool, timeoutSeconds: int, marker: string, start: int)

  /** The loop variables: accumulated output, time of the last output, and the
      number of consecutive empty polls. */
  datatype PollState = PollState(output: string, lastOutput: int, silentPolls: nat)

  /** How the loop ends. `TraceEnd` means the trace ran out while the loop was
      still polling; the source then goes on polling. */
  datatype LoopExit =
    | EndMarker(output: string)
    | HardTimeout(output: string)
    | PromptSeen(pattern: string, output: string)
    | SpecificPromptSeen(pattern: string, output: string)
    | Stalled(elapsedMs: int, quietMs: int, output: string)
    | TraceEnd(state: PollState)
  {
    function Output(): string {
      match this
      case EndMarker(o) => o
      case HardTimeout(o) => o
      case PromptSeen(_, o) => o
      case SpecificPromptSeen(_, o) => o
      case Stalled(_, _, o) => o
      case TraceEnd(st) => st.output
    }
  }

  datatype StepResult = Next(state: PollState) | Exit(exit: LoopExit)

  /** Consecutive empty polls tolerated: multiplied for slow/silent commands. */
  function StuckThreshold(slow: bool): nat {
    if slow then StuckThresholdIntervals * SlowCommandTimeoutMultiplier else StuckThresholdIntervals
  }

  /** Minimum elapsed and quiet time before a stall is considered: tripled for slow ones. */
  function MinTimeForStuck(slow: bool): nat {
    if slow then MinTimeBeforeStuckCheckMs * 3 else MinTimeBeforeStuckCheckMs
  }

  function Initial(cfg: PollConfig): PollState {
    PollState("", cfg.start, 0)
  }

  predicate PastDeadline(cfg: PollConfig, p: Poll) {
    p.clock - cfg.start >= cfg.timeoutSeconds * 1000
  }

  /** A pass whose read returned text: `out` is the output with it appended. The END
      marker is looked for first, then the prompt table the classification selects. */
  function OnOutput(cfg: PollConfig, out: string, clockAfter: int): (r: StepResult)
    ensures r.Next? ==> r.state == PollState(out, clockAfter, 0)
    ensures r.Exit? ==> r.exit.Output() == out
    ensures r.Exit? ==> r.exit.EndMarker? || r.exit.PromptSeen? || r.exit.SpecificPromptSeen?
    ensures r.Exit? && r.exit.EndMarker? <==> Contains(out, cfg.marker)
    ensures r.Exit? && r.exit.PromptSeen? ==>
      !cfg.slow && exists k :: 0 <= k < |InteractivePromptPatterns| && InteractivePromptPatterns[k].regex == r.exit.pattern
    ensures r.Exit? && r.exit.SpecificPromptSeen? ==>
      cfg.slow && exists k :: 0 <= k < |SpecificPromptPatterns| && SpecificPromptPatterns[k].regex == r.exit.pattern
    ensures !Contains(out, cfg.marker) && !cfg.slow ==>
      (r.Exit? <==> DetectInteractivePrompt(out).Some?)
      && (r.Exit? ==> r.exit == PromptSeen(DetectInteractivePrompt(out).value, out))
    ensures !Contains(out, cfg.marker) && cfg.slow ==>
      (r.Exit? <==> DetectSpecificPrompt(out).Some?)
      && (r.Exit? ==> r.exit == SpecificPromptSeen(DetectSpecificPrompt(out).value, out))
  {
    if Contains(out, cfg.marker) then Exit(EndMarker(out))
    else if !cfg.slow then AfterInteractiveCheck(out, clockAfter)
    else AfterSpecificCheck(out, clockAfter)
  }

  /** The prompt step of a normal command: the broad prompt table decides. */
  function AfterInteractiveCheck(out: string, clockAfter: int): (r: StepResult)
    ensures r.Next? ==> r.state == PollState(out, clockAfter, 0)
    ensures r.Exit? <==> DetectInteractivePrompt(out).Some?
    ensures r.Exit? ==> r.exit.Output() == out
    ensures r.Exit? ==> r.exit == PromptSeen(DetectInteractivePrompt(out).value, out)
    ensures r.Exit? ==> exists k :: 0 <= k < |InteractivePromptPatterns| && InteractivePromptPatterns[k].regex == r.exit.pattern
  {
    match DetectInteractivePrompt(out)
    case Some(pattern) => Exit(PromptSeen(pattern, out))
    case None => Next(PollState(out, clockAfter, 0))
  }

  /** The prompt step of a slow/silent command: only the specific prompts decide. */
  function AfterSpecificCheck(out: string, clockAfter: int): (r: StepResult)
    ensures r.Next? ==> r.state == PollState(out, clockAfter, 0)
    ensures r.Exit? <==> DetectSpecificPrompt(out).Some?
    ensures r.Exit? ==> r.exit.Output() == out
    ensures r.Exit? ==> r.exit == SpecificPromptSeen(DetectSpecificPrompt(out).value, out)
    ensures r.Exit? ==> exists k :: 0 <= k < |SpecificPromptPatterns| && SpecificPromptPatterns[k].regex == r.exit.pattern
  {
    match DetectSpecificPrompt(out)
    case Some(pattern) => Exit(SpecificPromptSeen(pattern, out))
    case None => Next(PollState(out, clockAfter, 0))
  }

  /** The stuck test of an empty pass: enough consecutive empty polls, and more
      than the minimum time both since the start and since the last output, all
      measured against the thresholds of the command's classification. */
  predicate StuckThresholdsMet(cfg: PollConfig, st: PollState, p: Poll) {
    st.silentPolls + 1 >= StuckThreshold(cfg.slow)
    && p.clock - cfg.start > MinTimeForStuck(cfg.slow)
    && p.clockAfter - st.lastOutput > MinTimeForStuck(cfg.slow)
  }

  /** A pass whose read returned nothing. */
  function OnSilence(cfg: PollConfig, st: PollState, p: Poll): (r: StepResult)
    ensures r.Next? ==> r.state.output == st.output && r.state.lastOutput == st.lastOutput
    ensures r.Next? ==> r.state.silentPolls == st.silentPolls + 1 || r.state.silentPolls == 0
    ensures r.Exit? <==> !cfg.slow && StuckThresholdsMet(cfg, st, p)
    ensures cfg.slow && StuckThresholdsMet(cfg, st, p) ==> r == Next(st.(silentPolls := 0))
    ensures !StuckThresholdsMet(cfg, st, p) ==> r == Next(st.(silentPolls := st.silentPolls + 1))
    ensures r.Exit? ==> r.exit.Stalled? && r.exit.output == st.output && !cfg.slow
    ensures r.Exit? ==> st.silentPolls + 1 >= StuckThreshold(false)
                        && r.exit.elapsedMs == p.clock - cfg.start && r.exit.elapsedMs > MinTimeForStuck(false)
                        && r.exit.quietMs > MinTimeForStuck(false)
  {
    var elapsed := p.clock - cfg.start;
    var silent := st.silentPolls + 1;
    var quiet := p.clockAfter - st.lastOutput;
    if silent >= StuckThreshold(cfg.slow) && elapsed > MinTimeForStuck(cfg.slow) && quiet > MinTimeForStuck(cfg.slow) then
      if cfg.slow then Next(st.(silentPolls := 0))
      else Exit(Stalled(elapsed, quiet, st.output))
    else Next(st.(silentPolls := silent))
  }

  /** One pass of the loop body: the hard-timeout check, then the read. */
  function Step(cfg: PollConfig, st: PollState, p: Poll): StepResult {
    if PastDeadline(cfg, p) then Exit(HardTimeout(st.output))
    else if p.data != "" then OnOutput(cfg, st.output + p.data, p.clockAfter)
    else OnSilence(cfg, st, p)
  }

  /** The loop over a whole trace. */
  function Run(cfg: PollConfig, st: PollState, trace: seq<Poll>): LoopExit
    decreases |trace|, 1
  {
    if trace == [] then TraceEnd(st) else Advance(cfg, st, trace)
  }

  /** The loop from its next poll on: one pass, then the rest of the trace. */
  function Advance(cfg: PollConfig, st: PollState, trace: seq<Poll>): LoopExit
    requires trace != []
    decreases |trace|, 0
  {
    match Step(cfg, st, trace[0])
    case Exit(e) => e
    case Next(st') => Run(cfg, st', trace[1..])
  }

  /** One pass of the `while True` body of `run_command` over the loop variables
      `st`; the thresholds are the ones the loop computed before it started. */
  method PollOnce(cfg: PollConfig, st: PollState, poll: Poll, stuckThreshold: nat, minTimeForStuck: nat)
    returns (r: StepResult)
    requires stuckThreshold == StuckThreshold(cfg.slow) && minTimeForStuck == MinTimeForStuck(cfg.slow)
    ensures r == Step(cfg, st, poll)
  {
    var elapsed := poll.clock - cfg.start;
    if elapsed >= cfg.timeoutSeconds * 1000 {
      return Exit(HardTimeout(st.output));
    }
    var newOutput := poll.data;
    if newOutput != "" {
      var accumulated := st.output + newOutput;
      if Contains(accumulated, cfg.marker) {
        return Exit(EndMarker(accumulated));
      }
      if !cfg.slow {
        var detected := DetectInteractivePrompt(accumulated);
        if detected.Some? {
          return Exit(PromptSeen(detected.value, accumulated));
        }
      } else {
        var specific := DetectSpecificPrompt(accumulated);
        if specific.Some? {
          return Exit(SpecificPromptSeen(specific.value, accumulated));
        }
      }
      return Next(PollState(accumulated, poll.clockAfter, 0));
    }
    var intervalsWithoutProgress := st.silentPolls + 1;
    if intervalsWithoutProgress >= stuckThreshold {
      var timeSinceOutput := poll.clockAfter - st.lastOutput;
      if elapsed > minTimeForStuck && timeSinceOutput > minTimeForStuck {
        if cfg.slow {
          return Next(st.(silentPolls := 0));
        }
        return Exit(Stalled(elapsed, timeSinceOutput, st.output));
      }
    }
    return Next(st.(silentPolls := intervalsWithoutProgress));
  }

  /** The `while True` loop of `run_command`, up to the point where it breaks on the
      END marker or returns a verdict. */
  method PollLoop(cfg: PollConfig, trace: seq<Poll>) returns (exit: LoopExit)
    ensures exit == Run(cfg, Initial(cfg), trace)
  {
    var st := PollState("", cfg.start, 0);
    var stuckThreshold := StuckThresholdIntervals;
    var minTimeForStuck := MinTimeBeforeStuckCheckMs;
    if cfg.slow {
      stuckThreshold := stuckThreshold * SlowCommandTimeoutMultiplier;
      minTimeForStuck := minTimeForStuck * 3;
    }
    var i := 0;
    while i < |trace|
      invariant 0 <= i <= |trace|
      invariant stuckThreshold == StuckThreshold(cfg.slow) && minTimeForStuck == MinTimeForStuck(cfg.slow)
      invariant Run(cfg, Initial(cfg), trace) == Run(cfg, st, trace[i..])
    {
      assert trace[i..][0] == trace[i] && trace[i..][1..] == trace[i + 1..];
      assert Run(cfg, st, trace[i..]) == Advance(cfg, st, trace[i..]);
      var r := PollOnce(cfg, st, trace[i], stuckThreshold, minTimeForStuck);
      match r
      case Exit(e) => return e;
      case Next(next) => st := next;
      i := i + 1;
    }
    exit := TraceEnd(st);
  }

  // ---------------------------------------------------------------------------
  // Properties of one pass

  /** The hard-timeout check comes before the read: past the deadline, whatever the
      read would have returned, the verdict is TIMEOUT with the output so far. */
  lemma DeadlineBeforeRead(cfg: PollConfig, st: PollState, p: Poll)
    requires PastDeadline(cfg, p)
    ensures Step(cfg, st, p) == Exit(HardTimeout(st.output))
  {
  }

  /** Arriving bytes are appended, stamp the output time and reset the empty-poll counter. */
  lemma BytesResetCounter(cfg: PollConfig, st: PollState, p: Poll)
    requires !PastDeadline(cfg, p) && p.data != ""
    ensures Step(cfg, st, p).Next? ==>
      Step(cfg, st, p).state == PollState(st.output + p.data, p.clockAfter, 0)
  {
  }

  /** The END-marker check precedes prompt detection. */
  lemma MarkerBeforePrompt(cfg: PollConfig, st: PollState, p: Poll)
    requires !PastDeadline(cfg, p) && p.data != "" && Contains(st.output + p.data, cfg.marker)
    ensures Step(cfg, st, p) == Exit(EndMarker(st.output + p.data))
  {
  }

  /** Slow classification multiplies the stuck threshold by ten and the minimum wait by three. */
  lemma SlowThresholds()
    ensures StuckThreshold(true) == SlowCommandTimeoutMultiplier * StuckThreshold(false) == 40
    ensures MinTimeForStuck(true) == 3 * MinTimeForStuck(false) == 15000
  {
  }

  // ---------------------------------------------------------------------------
  // Properties of the whole loop

  /** A first poll past the deadline ends the loop with TIMEOUT at once. */
  lemma TimeoutAtFirst(cfg: PollConfig, st: PollState, trace: seq<Poll>)
    requires trace != [] && PastDeadline(cfg, trace[0])
    ensures Run(cfg, st, trace) == HardTimeout(st.output)
  {
    DeadlineBeforeRead(cfg, st, trace[0]);
  }

  /** The first pass over a trace and over its first k + 1 polls is the same pass:
      either it decides both runs, or both go on from the same state with the rest. */
  lemma FirstPassOfPrefix(cfg: PollConfig, st: PollState, trace: seq<Poll>, k: nat)
    requires 0 < k < |trace|
    ensures Step(cfg, st, trace[0]).Exit? ==>
      Run(cfg, st, trace) == Run(cfg, st, trace[..k + 1]) == Step(cfg, st, trace[0]).exit
    ensures Step(cfg, st, trace[0]).Next? ==>
      Run(cfg, st, trace) == Run(cfg, Step(cfg, st, trace[0]).state, trace[1..]) &&
      Run(cfg, st, trace[..k + 1]) == Run(cfg, Step(cfg, st, trace[0]).state, trace[1..][..k])
  {
    var prefix := trace[..k + 1];
    assert prefix[0] == trace[0] && prefix[1..] == trace[1..][..k];
    assert Run(cfg, st, trace) == Advance(cfg, st, trace);
    assert Run(cfg, st, prefix) == Advance(cfg, st, prefix);
  }

  /** The verdict is reached no later than the first poll at or past the deadline:
      polls after it are never looked at, and the loop cannot still be waiting. */
  lemma {:induction false} DecidedByDeadline(cfg: PollConfig, st: PollState, trace: seq<Poll>, k: nat)
    requires k < |trace| && PastDeadline(cfg, trace[k])
    ensures Run(cfg, st, trace) == Run(cfg, st, trace[..k + 1])
    ensures !Run(cfg, st, trace).TraceEnd?
    decreases k, 1
  {
    if k == 0 {
      var prefix := trace[..1];
      assert prefix[0] == trace[0];
      TimeoutAtFirst(cfg, st, trace);
      TimeoutAtFirst(cfg, st, prefix);
    } else {
      DecidedAfterFirst(cfg, st, trace, k);
    }
  }

  /** The case of `DecidedByDeadline` where the deadline poll is not the first: the
      first pass either decides, or the rest of the trace is one poll nearer to it. */
  lemma {:induction false} DecidedAfterFirst(cfg: PollConfig, st: PollState, trace: seq<Poll>, k: nat)
    requires 0 < k < |trace| && PastDeadline(cfg, trace[k])
    ensures Run(cfg, st, trace) == Run(cfg, st, trace[..k + 1])
    ensures !Run(cfg, st, trace).TraceEnd?
    decreases k, 0
  {
    FirstPassOfPrefix(cfg, st, trace, k);
    var r := Step(cfg, st, trace[0]);
    if r.Next? {
      assert trace[1..][k - 1] == trace[k];
      DecidedByDeadline(cfg, r.state, trace[1..], k - 1);
    }
  }

  /** A slow/silent command never yields UNCERTAIN. */
  lemma {:induction false} SlowNeverStalls(cfg: PollConfig, st: PollState, trace: seq<Poll>)
    requires cfg.slow
    ensures !Run(cfg, st, trace).Stalled?
    decreases |trace|
  {
    if trace != [] {
      assert Run(cfg, st, trace) == Advance(cfg, st, trace);
      match Step(cfg, st, trace[0])
      case Exit(e) =>
      case Next(st') => SlowNeverStalls(cfg, st', trace[1..]);
    }
  }

  /** UNCERTAIN only for an ordinary command, only once both the elapsed and the quiet
      time exceed the minimum, and only after at least `StuckThreshold` consecutive
      empty polls (counting those the state had already seen). */
  lemma {:induction false} StallNeedsSilence(cfg: PollConfig, st: PollState, trace: seq<Poll>)
    requires Run(cfg, st, trace).Stalled?
    ensures !cfg.slow
    ensures Run(cfg, st, trace).elapsedMs > MinTimeForStuck(false)
    ensures Run(cfg, st, trace).quietMs > MinTimeForStuck(false)
    ensures exists k :: 0 <= k < |trace| && k + 1 + st.silentPolls >= StuckThreshold(false)
                        && Run(cfg, st, trace).elapsedMs == trace[k].clock - cfg.start
                        && forall j :: 0 <= j <= k && j >= k + 1 - StuckThreshold(false) ==> trace[j].data == ""
    decreases |trace|
  {
    var r := Run(cfg, st, trace);
    assert trace != [] && r == Advance(cfg, st, trace);
    var p := trace[0];
    var step := Step(cfg, st, p);
    if step.Exit? {
      assert step.exit == r;
      assert !PastDeadline(cfg, p) && p.data == "";
      assert 0 + 1 + st.silentPolls >= StuckThreshold(false);
    } else {
      var st' := step.state;
      assert r == Run(cfg, st', trace[1..]);
      StallNeedsSilence(cfg, st', trace[1..]);
      var k' :| 0 <= k' < |trace[1..]| && k' + 1 + st'.silentPolls >= StuckThreshold(false)
                && r.elapsedMs == trace[1..][k'].clock - cfg.start
                && forall j :: 0 <= j <= k' && j >= k' + 1 - StuckThreshold(false) ==> trace[1..][j].data == "";
      var k := k' + 1;
      assert (st'.silentPolls == st.silentPolls + 1 && p.data == "") || st'.silentPolls == 0;
      forall j | 0 <= j <= k && j >= k + 1 - StuckThreshold(false)
        ensures trace[j].data == ""
      {
        if j > 0 {
          assert trace[j] == trace[1..][j - 1];
        }
      }
    }
  }

  /** The full prompt table is used only for ordinary commands, the narrow one only for
      slow/silent commands, and the reported pattern is a row of the table used. */
  lemma {:induction false} PromptTables(cfg: PollConfig, st: PollState, trace: seq<Poll>)
    ensures Run(cfg, st, trace).PromptSeen? ==>
      !cfg.slow && exists k :: 0 <= k < |InteractivePromptPatterns| && InteractivePromptPatterns[k].regex == Run(cfg, st, trace).pattern
    ensures Run(cfg, st, trace).SpecificPromptSeen? ==>
      cfg.slow && exists k :: 0 <= k < |SpecificPromptPatterns| && SpecificPromptPatterns[k].regex == Run(cfg, st, trace).pattern
    decreases |trace|
  {
    if trace != [] {
      assert Run(cfg, st, trace) == Advance(cfg, st, trace);
      match Step(cfg, st, trace[0])
      case Exit(e) =>
      case Next(st') => PromptTables(cfg, st', trace[1..]);
    }
  }

  /** One pass only appends to the output. */
  lemma StepAppends(cfg: PollConfig, st: PollState, p: Poll)
    ensures Step(cfg, st, p).Next? ==> StartsWith(Step(cfg, st, p).state.output, st.output)
    ensures Step(cfg, st, p).Exit? ==> StartsWith(Step(cfg, st, p).exit.Output(), st.output)
    ensures Step(cfg, st, p).Exit? && Step(cfg, st, p).exit.EndMarker? ==>
      Contains(Step(cfg, st, p).exit.output, cfg.marker)
  {
    assert StartsWith(st.output + p.data, st.output);
  }

  /** Output is only ever appended to: every verdict carries all output seen so far, and
      an END-marker verdict's output holds the marker. */
  lemma {:induction false} OutputPreserved(cfg: PollConfig, st: PollState, trace: seq<Poll>)
    ensures StartsWith(Run(cfg, st, trace).Output(), st.output)
    ensures Run(cfg, st, trace).EndMarker? ==> Contains(Run(cfg, st, trace).output, cfg.marker)
    decreases |trace|
  {
    if trace != [] {
      assert Run(cfg, st, trace) == Advance(cfg, st, trace);
      StepAppends(cfg, st, trace[0]);
      var r := Step(cfg, st, trace[0]);
      if r.Next? {
        OutputPreserved(cfg, r.state, trace[1..]);
        assert Run(cfg, st, trace) == Run(cfg, r.state, trace[1..]);
      } else {
        assert Run(cfg, st, trace) == r.exit;
      }
    }
  }
}
