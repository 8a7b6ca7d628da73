/**
 * The bookkeeping of `run_commands_batch` (core/manager.py): how each entry of the
 * batch is read, how a reply counts as a success, what part of the reply is kept,
 * and the tally over the entries with the optional stop at the first failure.
 * The replies themselves come from the session (`Pool.ShellManager.RunCommandsBatch`).
 */
module Batch {
  import opened Wrappers
  import opened Text

  /** One element of the `commands` list: a bare string, or a dict whose absent keys
      are `None`; a falsy working directory is the empty string. */
  datatype CommandSpec =
    | Plain(text: string)
    | Fields(command: string, id: Option<string>, timeoutSeconds: Option<int>, workingDirectory: string)

  /** An entry with its defaults filled in. */
  datatype Entry = Entry(command: string, id: string, timeoutSeconds: int, workingDirectory: string)

  /** The defaults: id `cmd_i` for the entry at index i, a 30-second timeout and no
      working directory. */
  function ReadSpec(spec: CommandSpec, i: nat): Entry {
    var fallback := "cmd_" + NatToString(i);
    match spec
    case Plain(text) => Entry(text, fallback, 30, "")
    case Fields(command, id, timeout, wd) =>
      Entry(command, if id.Some? then id.value else fallback,
            if timeout.Some? then timeout.value else 30, wd)
  }

  /** `cd {wd} && {command}` when a working directory is given. */
  function InDirectory(command: string, workingDirectory: string): string {
    if workingDirectory != "" then "cd " + workingDirectory + " && " + command else command
  }

  /** An entry succeeded when its reply says so in either of the two ways. */
  predicate Succeeded(reply: string) {
    Contains(reply, "STATUS: SUCCESS") || Contains(reply, "EXIT_CODE: 0")
  }

  // ---------------------------------------------------------------------------
  // The part of a reply after "OUTPUT:"

  predicate IsOutputHeader(line: string) {
    StartsWith(line, "OUTPUT:")
  }

  /** The state of the scan over the reply's lines: whether an "OUTPUT:" line was
      seen, and the lines kept so far. */
  datatype Scan = Scan(inOutput: bool, kept: seq<string>)

  function ScanLines(lines: seq<string>): Scan {
    if lines == [] then Scan(false, [])
    else
      var s := ScanLines(lines[..|lines| - 1]);
      var line := lines[|lines| - 1];
      if IsOutputHeader(line) then s.(inOutput := true)
      else if s.inOutput then s.(kept := s.kept + [line])
      else s
  }

  /** The index of the first "OUTPUT:" line. */
  function FirstHeader(lines: seq<string>): (r: Option<nat>)
    ensures r.Some? ==>
      r.value < |lines| && IsOutputHeader(lines[r.value])
      && forall j :: 0 <= j < r.value ==> !IsOutputHeader(lines[j])
    ensures r.None? ==> forall j :: 0 <= j < |lines| ==> !IsOutputHeader(lines[j])
  {
    if lines == [] then None
    else
      var r := FirstHeader(lines[..|lines| - 1]);
      if r.Some? then r
      else if IsOutputHeader(lines[|lines| - 1]) then Some(|lines| - 1)
      else None
  }

  /** The lines that are not "OUTPUT:" lines, in order. */
  function NonHeaders(lines: seq<string>): (r: seq<string>)
    ensures forall k :: 0 <= k < |r| ==> !IsOutputHeader(r[k]) && r[k] in lines
  {
    if lines == [] then []
    else
      var line := lines[|lines| - 1];
      NonHeaders(lines[..|lines| - 1]) + if IsOutputHeader(line) then [] else [line]
  }

  /** The scan keeps exactly the non-"OUTPUT:" lines after the first "OUTPUT:" line,
      and nothing when there is none. */
  lemma {:induction false} ScanSpec(lines: seq<string>)
    ensures ScanLines(lines).inOutput <==> FirstHeader(lines).Some?
    ensures ScanLines(lines).kept ==
      if FirstHeader(lines).Some? then NonHeaders(lines[FirstHeader(lines).value + 1..]) else []
  {
    if lines != [] {
      var init := lines[..|lines| - 1];
      var line := lines[|lines| - 1];
      ScanSpec(init);
      match FirstHeader(init)
      case Some(p) =>
        assert FirstHeader(lines) == Some(p);
        SuffixInit(lines, p + 1);
        var t := lines[p + 1..];
        assert NonHeaders(t) == NonHeaders(init[p + 1..]) + if IsOutputHeader(line) then [] else [line];
      case None =>
        if IsOutputHeader(line) {
          assert FirstHeader(lines) == Some(|init|);
          assert lines[|init| + 1..] == [];
        } else {
          assert FirstHeader(lines).None?;
        }
    }
  }

  /** A suffix of a non-empty sequence ends with its last element, after the same
      suffix of everything before it. */
  lemma SuffixInit<T>(s: seq<T>, i: nat)
    requires i < |s|
    ensures var t := s[i..];
      t != [] && t[..|t| - 1] == s[..|s| - 1][i..] && t[|t| - 1] == s[|s| - 1]
  {
  }

  /** `'\n'.join(output_lines).strip()`, or "(no output)" when no line was kept. */
  function CleanOutput(reply: string): string {
    var kept := ScanLines(Lines(reply)).kept;
    if kept == [] then "(no output)" else Strip(Unlines(kept))
  }

  /** The output part of a reply, as the batch loop extracts it. */
  method ExtractOutput(reply: string) returns (clean: string)
    ensures clean == CleanOutput(reply)
  {
    var kept := ScanOutput(Lines(reply));
    clean := if kept == [] then "(no output)" else Strip(Unlines(kept));
  }

  /** The loop over a reply's lines with the `in_output` flag. */
  method ScanOutput(lines: seq<string>) returns (kept: seq<string>)
    ensures kept == ScanLines(lines).kept
  {
    var inOutput := false;
    kept := [];
    var i := 0;
    while i < |lines|
      invariant 0 <= i <= |lines|
      invariant Scan(inOutput, kept) == ScanLines(lines[..i])
    {
      PrefixOfPrefix(lines, i);
      var line := lines[i];
      if IsOutputHeader(line) {
        inOutput := true;
      } else if inOutput {
        kept := kept + [line];
      }
      i := i + 1;
    }
    TakeAll(lines, i);
  }

  // ---------------------------------------------------------------------------
  // The tally

  /** One line of the results: a skipped entry, an entry with its reply, or the
      STOPPED notice. */
  datatype ResultLine = Skipped(id: string) | Ran(id: string, reply: string) | Stopped(id: string)

  /** The results so far, the two counters, and whether the batch stopped. */
  datatype Tally = Tally(lines: seq<ResultLine>, succeeded: nat, failed: nat, stopped: bool)

  /** One entry: an empty command is skipped without counting; otherwise its reply is
      counted as a success or a failure, and a failure under stop-on-error adds the
      STOPPED line and ends the batch. */
  function Record(t: Tally, e: Entry, reply: string, stopOnError: bool): Tally {
    if e.command == "" then t.(lines := t.lines + [Skipped(e.id)])
    else
      var ok := Succeeded(reply);
      var t1 := Tally(t.lines + [Ran(e.id, reply)],
                      t.succeeded + (if ok then 1 else 0), t.failed + (if ok then 0 else 1), false);
      if stopOnError && !ok then t1.(lines := t1.lines + [Stopped(e.id)], stopped := true)
      else t1
  }

  /** The tally after the entries that got a reply slot (one slot per entry reached,
      "" for a skipped one); entries after a stop are not looked at. */
  function Tallied(specs: seq<CommandSpec>, replies: seq<string>, stopOnError: bool): Tally
    requires |replies| <= |specs|
  {
    if replies == [] then Tally([], 0, 0, false)
    else
      var n := |replies| - 1;
      var t := Tallied(specs, replies[..n], stopOnError);
      if t.stopped then t else Record(t, ReadSpec(specs[n], n), replies[n], stopOnError)
  }

  /** The number of entries among the first n whose command is non-empty. */
  function WithCommand(specs: seq<CommandSpec>, n: nat): nat
    requires n <= |specs|
  {
    if n == 0 then 0
    else WithCommand(specs, n - 1) + if ReadSpec(specs[n - 1], n - 1).command != "" then 1 else 0
  }

  /** Without stop-on-error nothing stops: every entry gets exactly one result line,
      in order, and every entry with a command is counted exactly once, as a success
      or a failure. */
  lemma {:induction false} TallyAll(specs: seq<CommandSpec>, replies: seq<string>)
    requires |replies| <= |specs|
    ensures var t := Tallied(specs, replies, false);
      && !t.stopped
      && |t.lines| == |replies|
      && t.succeeded + t.failed == WithCommand(specs, |replies|)
  {
    if replies != [] {
      TallyAll(specs, replies[..|replies| - 1]);
    }
  }

  /** The line for each entry, without stop-on-error: skipped for an empty command,
      otherwise the entry's id with its reply. */
  lemma {:induction false} TallyLines(specs: seq<CommandSpec>, replies: seq<string>, k: nat)
    requires |replies| <= |specs| && k < |replies|
    ensures var e := ReadSpec(specs[k], k);
      && k < |Tallied(specs, replies, false).lines|
      && Tallied(specs, replies, false).lines[k] == if e.command == "" then Skipped(e.id) else Ran(e.id, replies[k])
  {
    var n := |replies| - 1;
    TallyAll(specs, replies[..n]);
    var t := Tallied(specs, replies[..n], false);
    assert Tallied(specs, replies, false) == Record(t, ReadSpec(specs[n], n), replies[n], false);
    RecordAppends(t, ReadSpec(specs[n], n), replies[n]);
    if k < n {
      TallyLines(specs, replies[..n], k);
      assert replies[..n][k] == replies[k];
    }
  }

  /** Without stop-on-error, one entry adds exactly its own line. */
  lemma RecordAppends(t: Tally, e: Entry, reply: string)
    ensures Record(t, e, reply, false).lines
            == t.lines + [if e.command == "" then Skipped(e.id) else Ran(e.id, reply)]
  {
  }

  /** Under stop-on-error the batch stops at its first failure: at most one failure is
      ever counted, the batch has stopped exactly when one was, and the STOPPED line is
      then the last line. */
  lemma {:induction false} TallyStops(specs: seq<CommandSpec>, replies: seq<string>)
    requires |replies| <= |specs|
    ensures var t := Tallied(specs, replies, true);
      && t.failed <= 1
      && (t.stopped <==> t.failed == 1)
      && (t.stopped ==> t.lines != [] && t.lines[|t.lines| - 1].Stopped?)
  {
    if replies != [] {
      TallyStops(specs, replies[..|replies| - 1]);
    }
  }

  /** A batch whose tally was not stopped before its last reply slot stopped, if at
      all, at that slot. */
  lemma StoppedAtLast(specs: seq<CommandSpec>, stopOnError: bool, earlier: seq<string>, replies: seq<string>)
    requires |replies| <= |specs|
    requires |replies| > 0 ==> |earlier| == |replies| - 1 && replies == earlier + [replies[|replies| - 1]]
    requires |replies| > 0 ==> !Tallied(specs, earlier, stopOnError).stopped
    ensures Tallied(specs, replies, stopOnError).stopped ==>
      |replies| > 0 && !Tallied(specs, replies[..|replies| - 1], stopOnError).stopped
  {
    if |replies| > 0 {
      InitOfAppend(earlier, replies[|replies| - 1]);
    }
  }

  /** Skipped entries count as neither: the two counters never exceed the entries
      reached. */
  lemma {:induction false} TallyBound(specs: seq<CommandSpec>, replies: seq<string>, stopOnError: bool)
    requires |replies| <= |specs|
    ensures Tallied(specs, replies, stopOnError).succeeded + Tallied(specs, replies, stopOnError).failed
            <= WithCommand(specs, |replies|)
  {
    if replies != [] {
      TallyBound(specs, replies[..|replies| - 1], stopOnError);
    }
  }

  /** `"=" * 50`. */
  function Rule(n: nat): (r: string)
    ensures |r| == n && forall k :: 0 <= k < n ==> r[k] == '='
  {
    if n == 0 then "" else Rule(n - 1) + "="
  }

  /** The text of a result line; a ran entry shows SUCCESS or FAILED and the part of
      its reply after "OUTPUT:". */
  function LineText(line: ResultLine): string {
    match line
    case Skipped(id) => "[" + id + "] SKIPPED: Empty command"
    case Ran(id, reply) =>
      "[" + id + "] " + (if Succeeded(reply) then "SUCCESS" else "FAILED") + "\n" + CleanOutput(reply)
    case Stopped(id) => "\n--- STOPPED: Command '" + id + "' failed and stop_on_error=True ---"
  }

  function LineTexts(lines: seq<ResultLine>): (r: seq<string>)
    ensures |r| == |lines|
  {
    seq(|lines|, k requires 0 <= k < |lines| => LineText(lines[k]))
  }

  /** Adding result lines adds their texts at the end. */
  lemma LineTextsAppend(lines: seq<ResultLine>, more: seq<ResultLine>)
    ensures LineTexts(lines + more) == LineTexts(lines) + LineTexts(more)
  {
    var a := LineTexts(lines + more);
    var b := LineTexts(lines) + LineTexts(more);
    forall k | 0 <= k < |a| ensures a[k] == b[k] {
      if k < |lines| {
        assert (lines + more)[k] == lines[k];
      } else {
        assert (lines + more)[k] == more[k - |lines|];
      }
    }
  }

  /** One pass of the batch loop: the entry's result texts are appended as the tally
      records it. */
  method RecordStep(t: Tally, texts: seq<string>, e: Entry, reply: string, stopOnError: bool)
    returns (t': Tally, texts': seq<string>)
    requires texts == LineTexts(t.lines)
    ensures t' == Record(t, e, reply, stopOnError)
    ensures texts' == LineTexts(t'.lines)
  {
    if e.command == "" {
      t' := t.(lines := t.lines + [Skipped(e.id)]);
      texts' := texts + ["[" + e.id + "] SKIPPED: Empty command"];
      LineTextsAppend(t.lines, [Skipped(e.id)]);
      return;
    }
    var ok := Succeeded(reply);
    var clean := ExtractOutput(reply);
    var status := if ok then "SUCCESS" else "FAILED";
    t' := Tally(t.lines + [Ran(e.id, reply)],
                t.succeeded + (if ok then 1 else 0), t.failed + (if ok then 0 else 1), false);
    texts' := texts + ["[" + e.id + "] " + status + "\n" + clean];
    LineTextsAppend(t.lines, [Ran(e.id, reply)]);
    if stopOnError && !ok {
      LineTextsAppend(t'.lines, [Stopped(e.id)]);
      t' := t'.(lines := t'.lines + [Stopped(e.id)], stopped := true);
      texts' := texts' + ["\n--- STOPPED: Command '" + e.id + "' failed and stop_on_error=True ---"];
    }
  }

  /** The two header lines with the counts over all entries. */
  function Summary(total: nat, t: Tally): string {
    "BATCH RESULTS: " + NatToString(t.succeeded) + "/" + NatToString(total) + " succeeded, "
    + NatToString(t.failed) + " failed\n" + Rule(50)
  }

  /** The header, then the result lines separated by blank lines. */
  function BatchText(total: nat, t: Tally): string {
    Summary(total, t) + "\n\n" + Join(LineTexts(t.lines), "\n\n")
  }
}
