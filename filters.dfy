/**
 * The output filters of the tool layer (tools/handlers.py): `_filter_output`, which
 * trims the reply of one command, and `_filter_batch_output` with `_truncate_section`,
 * which trim each section of a batch reply. They exist to keep long outputs out of
 * the caller's context window: a grep filter, head or tail truncation, and header
 * lines that always survive.
 *
 * An absent `max_lines` and a zero `max_lines` behave the same (both are falsy), so
 * both are the integer 0 here; an absent `grep` and an empty one are both "".
 */
module Filters {
  import opened Wrappers
  import opened Text
  import Batch

  // ---------------------------------------------------------------------------
  // Python slices and list filters

  /** Where a slice bound `i` lands in a list of length `n`: negative bounds count
      from the end, and bounds past either end are clamped. */
  function SliceIndex(n: nat, i: int): nat {
    if i < 0 then (if n + i < 0 then 0 else n + i) else if i > n then n else i
  }

  /** `s[:k]`: a prefix of `s`, of length k for 0 <= k <= |s|, and without the last
      -k elements for a negative k. */
  function Head<T>(s: seq<T>, k: int): (r: seq<T>)
    ensures |r| <= |s| && r == s[..|r|]
    ensures 0 <= k <= |s| ==> |r| == k
    ensures k < 0 && -k <= |s| ==> |r| == |s| + k
  {
    s[..SliceIndex(|s|, k)]
  }

  /** `s[-k:]`: a suffix of `s`, the last k elements for 0 < k <= |s|, all of `s`
      for k == 0, and without the first -k elements for a negative k. */
  function Tail<T>(s: seq<T>, k: int): (r: seq<T>)
    ensures |r| <= |s| && r == s[|s| - |r|..]
    ensures 0 < k <= |s| ==> |r| == k
    ensures k == 0 ==> r == s
    ensures k < 0 && -k <= |s| ==> |r| == |s| + k
  {
    s[SliceIndex(|s|, -k)..]
  }

  /** `[x for x in s if p(x)]`. */
  function Keep<T>(s: seq<T>, p: T -> bool): (r: seq<T>)
    ensures |r| <= |s|
  {
    if s == [] then []
    else
      var last := s[|s| - 1];
      Keep(s[..|s| - 1], p) + if p(last) then [last] else []
  }

  /** `idx` lists, in increasing order, positions of `s` that hold the elements of `r`. */
  predicate Picks<T(==)>(r: seq<T>, s: seq<T>, idx: seq<nat>) {
    && |idx| == |r|
    && (forall k :: 0 <= k < |idx| ==> idx[k] < |s| && r[k] == s[idx[k]])
    && (forall j, k :: 0 <= j < k < |idx| ==> idx[j] < idx[k])
  }

  /** `r` is `s` with some elements left out and the rest in their order. */
  ghost predicate IsSubsequence<T>(r: seq<T>, s: seq<T>) {
    exists idx :: Picks(r, s, idx)
  }

  /** The filter keeps exactly the positions whose element satisfies `p`, in order. */
  lemma {:induction false} KeepPicks<T>(s: seq<T>, p: T -> bool) returns (idx: seq<nat>)
    ensures Picks(Keep(s, p), s, idx)
    ensures forall i :: 0 <= i < |s| ==> (p(s[i]) <==> i in idx)
  {
    if s == [] {
      idx := [];
    } else {
      var init := s[..|s| - 1];
      var prev := KeepPicks(init, p);
      assert forall i :: 0 <= i < |init| ==> s[i] == init[i];
      if p(s[|s| - 1]) {
        idx := prev + [|s| - 1];
      } else {
        idx := prev;
      }
    }
  }

  /** Every element the filter keeps satisfies `p`. */
  lemma {:induction false} KeepAll<T>(s: seq<T>, p: T -> bool)
    ensures forall k :: 0 <= k < |Keep(s, p)| ==> p(Keep(s, p)[k])
  {
    if s != [] {
      KeepAll(s[..|s| - 1], p);
    }
  }

  /** A slice of a subsequence is a subsequence. */
  lemma SlicePicks<T>(r: seq<T>, s: seq<T>, idx: seq<nat>, lo: nat, hi: nat)
    requires Picks(r, s, idx) && lo <= hi <= |r|
    ensures Picks(r[lo..hi], s, idx[lo..hi])
  {
  }

  /** `[l for l in lines if grep in l]`. */
  function Grep(lines: seq<string>, grep: string): seq<string> {
    Keep(lines, (l: string) => Contains(l, grep))
  }

  /** The grep filter keeps, in order, exactly the lines that contain the pattern. */
  lemma GrepSpec(lines: seq<string>, grep: string) returns (idx: seq<nat>)
    ensures Picks(Grep(lines, grep), lines, idx)
    ensures forall i :: 0 <= i < |lines| ==> (Contains(lines[i], grep) <==> i in idx)
    ensures forall l :: l in Grep(lines, grep) ==> Contains(l, grep)
  {
    idx := KeepPicks(lines, (l: string) => Contains(l, grep));
    KeepAll(lines, (l: string) => Contains(l, grep));
  }

  // ---------------------------------------------------------------------------
  // `_filter_output`

  /** The state of the loop that sorts the reply's lines: whether an "OUTPUT:" line
      was seen, the header lines and the output lines so far. */
  datatype Parts = Parts(inOutput: bool, headers: seq<string>, outputs: seq<string>)

  /** Every "OUTPUT:" line, and every line before the first one, is a header line;
      the other lines are output lines. */
  function Partition(lines: seq<string>): Parts {
    if lines == [] then Parts(false, [], [])
    else
      var p := Partition(lines[..|lines| - 1]);
      var line := lines[|lines| - 1];
      if Batch.IsOutputHeader(line) then p.(inOutput := true, headers := p.headers + [line])
      else if p.inOutput then p.(outputs := p.outputs + [line])
      else p.(headers := p.headers + [line])
  }

  /** The loop of `_filter_output` with the `in_output` flag. */
  method SplitReply(lines: seq<string>) returns (headers: seq<string>, outputs: seq<string>)
    ensures headers == Partition(lines).headers && outputs == Partition(lines).outputs
  {
    var inOutput := false;
    headers, outputs := [], [];
    var i := 0;
    while i < |lines|
      invariant 0 <= i <= |lines|
      invariant Parts(inOutput, headers, outputs) == Partition(lines[..i])
    {
      PrefixOfPrefix(lines, i);
      var line := lines[i];
      if Batch.IsOutputHeader(line) {
        inOutput := true;
        headers := headers + [line];
      } else if inOutput {
        outputs := outputs + [line];
      } else {
        headers := headers + [line];
      }
      i := i + 1;
    }
    TakeAll(lines, i);
  }

  /** With no "OUTPUT:" line every line is a header line. Otherwise the header lines
      are the lines up to and including the first "OUTPUT:" line followed by the later
      "OUTPUT:" lines, in their original order. */
  lemma {:induction false} PartitionHeaders(lines: seq<string>)
    ensures var p := Partition(lines);
      match Batch.FirstHeader(lines)
      case None => p.headers == lines && !p.inOutput
      case Some(h) => p.inOutput && p.headers == lines[..h + 1] + Keep(lines[h + 1..], Batch.IsOutputHeader)
  {
    if lines != [] {
      var init := lines[..|lines| - 1];
      var line := lines[|lines| - 1];
      PartitionHeaders(init);
      match Batch.FirstHeader(init)
      case Some(h) =>
        assert Batch.FirstHeader(lines) == Some(h);
        HeadersAfterFirst(lines, h);
      case None =>
        if Batch.IsOutputHeader(line) {
          assert Batch.FirstHeader(lines) == Some(|init|);
          HeadersAtFirst(lines);
          assert lines[..|init| + 1] == lines;
          assert Keep(lines[|init| + 1..], Batch.IsOutputHeader) == [];
        } else {
          assert Batch.FirstHeader(lines).None?;
          assert init + [line] == lines;
        }
    }
  }

  /** The step of `PartitionHeaders` at the first "OUTPUT:" line. */
  lemma HeadersAtFirst(lines: seq<string>)
    requires lines != [] && Batch.IsOutputHeader(lines[|lines| - 1])
    requires Partition(lines[..|lines| - 1]).headers == lines[..|lines| - 1]
    ensures Partition(lines).inOutput && Partition(lines).headers == lines
  {
    InitLast(lines);
  }

  /** One step of `PartitionHeaders` past the first "OUTPUT:" line. */
  lemma HeadersAfterFirst(lines: seq<string>, h: nat)
    requires h + 1 < |lines|
    requires var p := Partition(lines[..|lines| - 1]);
      p.inOutput && p.headers == lines[..h + 1] + Keep(lines[h + 1..|lines| - 1], Batch.IsOutputHeader)
    ensures var p := Partition(lines);
      p.inOutput && p.headers == lines[..h + 1] + Keep(lines[h + 1..], Batch.IsOutputHeader)
  {
    var line := lines[|lines| - 1];
    KeepSlice(lines, Batch.IsOutputHeader, h + 1);
    var head, kept := lines[..h + 1], Keep(lines[h + 1..|lines| - 1], Batch.IsOutputHeader);
    if Batch.IsOutputHeader(line) {
      assert Partition(lines).headers == (head + kept) + [line];
      ConcatAssoc(head, kept, [line]);
    } else {
      assert Partition(lines).headers == head + kept;
    }
  }

  lemma ConcatAssoc<T>(a: seq<T>, b: seq<T>, c: seq<T>)
    ensures (a + b) + c == a + (b + c)
  {
  }

  /** Filtering a suffix that ends with the last element. */
  lemma KeepSlice<T>(s: seq<T>, p: T -> bool, a: nat)
    requires a < |s|
    ensures Keep(s[a..], p) == Keep(s[a..|s| - 1], p) + if p(s[|s| - 1]) then [s[|s| - 1]] else []
  {
    var t := s[a..];
    assert t[..|t| - 1] == s[a..|s| - 1];
  }

  /** The output lines are the lines after the first "OUTPUT:" line that are not
      "OUTPUT:" lines themselves, in their original order; there are none without an
      "OUTPUT:" line. */
  lemma {:induction false} PartitionOutputs(lines: seq<string>)
    ensures var p := Partition(lines);
      p.inOutput <==> Batch.FirstHeader(lines).Some?
    ensures var p := Partition(lines);
      p.outputs == if Batch.FirstHeader(lines).Some? then Batch.NonHeaders(lines[Batch.FirstHeader(lines).value + 1..]) else []
  {
    if lines != [] {
      var init := lines[..|lines| - 1];
      PartitionOutputs(init);
      match Batch.FirstHeader(init)
      case Some(h) => OutputsAfterFirst(lines, h);
      case None => OutputsUpToFirst(lines);
    }
  }

  /** One step of `PartitionOutputs` once the first "OUTPUT:" line is behind. */
  lemma OutputsAfterFirst(lines: seq<string>, h: nat)
    requires lines != [] && Batch.FirstHeader(lines[..|lines| - 1]) == Some(h)
    requires var p := Partition(lines[..|lines| - 1]);
      p.inOutput && p.outputs == Batch.NonHeaders(lines[..|lines| - 1][h + 1..])
    ensures Batch.FirstHeader(lines) == Some(h)
    ensures Partition(lines).inOutput && Partition(lines).outputs == Batch.NonHeaders(lines[h + 1..])
  {
    var init, line := lines[..|lines| - 1], lines[|lines| - 1];
    Batch.SuffixInit(lines, h + 1);
    assert Batch.NonHeaders(lines[h + 1..])
      == Batch.NonHeaders(init[h + 1..]) + if Batch.IsOutputHeader(line) then [] else [line];
  }

  /** One step of `PartitionOutputs` while no "OUTPUT:" line has been seen. */
  lemma OutputsUpToFirst(lines: seq<string>)
    requires lines != [] && Batch.FirstHeader(lines[..|lines| - 1]).None?
    requires var p := Partition(lines[..|lines| - 1]);
      !p.inOutput && p.outputs == []
    ensures var p := Partition(lines);
      && (p.inOutput <==> Batch.FirstHeader(lines).Some?)
      && p.outputs == if Batch.FirstHeader(lines).Some? then Batch.NonHeaders(lines[Batch.FirstHeader(lines).value + 1..]) else []
  {
    var init := lines[..|lines| - 1];
    if Batch.IsOutputHeader(lines[|lines| - 1]) {
      assert Batch.FirstHeader(lines) == Some(|init|);
      assert lines[|init| + 1..] == [];
    } else {
      assert Batch.FirstHeader(lines).None?;
    }
  }

  /** `output_lines` after the optional `max_lines` cut, and whether it cut: "head"
      keeps the first lines, any other mode the last. */
  function Truncate(lines: seq<string>, maxLines: int, mode: string): (seq<string>, bool) {
    if maxLines != 0 && |lines| > maxLines then
      (if mode == "head" then Head(lines, maxLines) else Tail(lines, maxLines), true)
    else (lines, false)
  }

  /** A cut happens exactly when a limit is set and the lines exceed it; with a
      positive limit at most that many lines remain, the first ones for "head" and
      the last ones otherwise; without a cut every line remains. */
  lemma TruncateSpec(lines: seq<string>, maxLines: int, mode: string)
    ensures var (shown, cut) := Truncate(lines, maxLines, mode);
      && (cut <==> maxLines != 0 && |lines| > maxLines)
      && (!cut ==> shown == lines)
      && (maxLines > 0 ==> |shown| <= maxLines)
      && (cut && maxLines > 0 && mode == "head" ==> shown == lines[..maxLines])
      && (cut && maxLines > 0 && mode != "head" ==> shown == lines[|lines| - maxLines..])
  {
  }

  /** The GREP and TRUNCATED notes, one per line. */
  function InfoText(grep: string, shown: nat, cut: bool, original: nat, mode: string): string {
    var grepNote := if grep != "" then ["GREP: '" + grep + "' (" + NatToString(shown) + " matches)"] else [];
    var cutNote :=
      if cut then ["TRUNCATED: " + NatToString(shown) + "/" + NatToString(original) + " lines (" + mode + ")"]
      else [];
    Join(grepNote + cutNote, "\n")
  }

  /** `lst.insert(-1, x)`: before the last element, or as the only one. */
  function InsertBeforeLast(xs: seq<string>, x: string): (r: seq<string>)
    ensures |r| == |xs| + 1
    ensures xs != [] ==> r[..|xs| - 1] == xs[..|xs| - 1] && r[|xs| - 1] == x && r[|xs|] == xs[|xs| - 1]
  {
    if xs == [] then [x] else xs[..|xs| - 1] + [x, xs[|xs| - 1]]
  }

  /** The output lines that survive the grep filter. */
  function Matched(outputs: seq<string>, grep: string): seq<string> {
    if grep != "" then Grep(outputs, grep) else outputs
  }

  /** The header lines, with the note placed before the last of them when there is
      one, and then the output lines. */
  function Assemble(headers: seq<string>, note: Option<string>, shown: seq<string>): seq<string> {
    (if note.Some? then InsertBeforeLast(headers, note.value) else headers) + shown
  }

  /** The lines `_filter_output` joins, when a limit or a grep pattern is given; they
      end with the output lines that survive the filter and the cut. */
  function FilteredLines(lines: seq<string>, maxLines: int, mode: string, grep: string): (r: seq<string>)
    ensures var shown := Truncate(Matched(Partition(lines).outputs, grep), maxLines, mode).0;
      |shown| <= |r| && r[|r| - |shown|..] == shown
  {
    var parts := Partition(lines);
    var (shown, cut) := Truncate(Matched(parts.outputs, grep), maxLines, mode);
    var note := if cut || grep != "" then Some(InfoText(grep, |shown|, cut, |parts.outputs|, mode)) else None;
    Assemble(parts.headers, note, shown)
  }

  /** `_filter_output`: the reply unchanged when neither a limit nor a pattern is
      given. */
  function FilterOutput(result: string, maxLines: int, mode: string, grep: string): (r: string)
    ensures maxLines == 0 && grep == "" ==> r == result
  {
    if maxLines == 0 && grep == "" then result else Unlines(FilteredLines(Lines(result), maxLines, mode, grep))
  }

  /** `_filter_output` as the handler runs it. */
  method RunFilterOutput(result: string, maxLines: int, mode: string, grep: string) returns (r: string)
    ensures r == FilterOutput(result, maxLines, mode, grep)
  {
    if maxLines == 0 && grep == "" {
      return result;
    }
    var headers, outputs := SplitReply(Lines(result));
    var matched := if grep != "" then Grep(outputs, grep) else outputs;
    var shown, cut := Truncate(matched, maxLines, mode).0, Truncate(matched, maxLines, mode).1;
    if cut || grep != "" {
      headers := InsertBeforeLast(headers, InfoText(grep, |shown|, cut, |outputs|, mode));
    }
    r := Unlines(headers + shown);
  }

  /** The lines shown are output lines in their original order, each containing the
      pattern when one is given, at most `maxLines` of them for a positive limit, and
      all matching output lines when the limit does not bite. */
  lemma ShownSpec(outputs: seq<string>, maxLines: int, mode: string, grep: string)
    ensures var matched := Matched(outputs, grep);
      var shown := Truncate(matched, maxLines, mode).0;
      && IsSubsequence(shown, outputs)
      && (grep != "" ==> forall k :: 0 <= k < |shown| ==> Contains(shown[k], grep))
      && (maxLines > 0 ==> |shown| <= maxLines)
      && (maxLines == 0 || |matched| <= maxLines ==> shown == matched)
  {
    ShownPicked(outputs, maxLines, mode, grep);
    TruncateSpec(Matched(outputs, grep), maxLines, mode);
  }

  /** The subsequence half of `ShownSpec`. */
  lemma ShownPicked(outputs: seq<string>, maxLines: int, mode: string, grep: string)
    ensures var shown := Truncate(Matched(outputs, grep), maxLines, mode).0;
      && IsSubsequence(shown, outputs)
      && (grep != "" ==> forall k :: 0 <= k < |shown| ==> Contains(shown[k], grep))
  {
    var matched := Matched(outputs, grep);
    var idx := MatchedPicks(outputs, grep);
    TruncateSpec(matched, maxLines, mode);
    SliceIsSubsequence(matched, outputs, idx, Truncate(matched, maxLines, mode).0);
  }

  /** The lines that survive the grep filter are output lines, in order, and contain
      the pattern when one is given. */
  lemma MatchedPicks(outputs: seq<string>, grep: string) returns (idx: seq<nat>)
    ensures Picks(Matched(outputs, grep), outputs, idx)
    ensures grep != "" ==> forall l :: l in Matched(outputs, grep) ==> Contains(l, grep)
  {
    if grep != "" {
      idx := GrepSpec(outputs, grep);
    } else {
      idx := seq(|outputs|, k => k);
    }
  }

  /** A prefix or a suffix of a subsequence is a subsequence. */
  lemma SliceIsSubsequence<T>(r: seq<T>, s: seq<T>, idx: seq<nat>, part: seq<T>)
    requires Picks(r, s, idx)
    requires |part| <= |r| && (part == r[..|part|] || part == r[|r| - |part|..])
    ensures IsSubsequence(part, s)
  {
    if part == r[..|part|] {
      SlicePicks(r, s, idx, 0, |part|);
      assert Picks(part, s, idx[..|part|]);
    } else {
      SlicePicks(r, s, idx, |r| - |part|, |r|);
      assert Picks(part, s, idx[|r| - |part|..]);
    }
  }

  /** The header lines come first, unchanged and in order, with the note placed just
      before the last of them when there is one; the shown lines follow. */
  lemma AssembleSpec(headers: seq<string>, note: Option<string>, shown: seq<string>)
    requires headers != []
    ensures var r := Assemble(headers, note, shown);
      var n := |headers| + if note.Some? then 1 else 0;
      && |r| == n + |shown|
      && r[..|headers| - 1] == headers[..|headers| - 1]
      && r[n - 1] == headers[|headers| - 1]
      && (note.Some? ==> r[|headers| - 1] == note.value)
      && r[n..] == shown
  {
  }

  /** What the filtered lines are made of, for a reply with at least one line (every
      split of a string has one): the header lines come first, unchanged and in
      order, with the GREP/TRUNCATED note placed before the last of them exactly when
      a pattern is given or a cut happened. */
  lemma FilteredHeaders(lines: seq<string>, maxLines: int, mode: string, grep: string)
    requires lines != []
    ensures var parts := Partition(lines);
      var h := parts.headers;
      var r := FilteredLines(lines, maxLines, mode, grep);
      var (shown, cut) := Truncate(Matched(parts.outputs, grep), maxLines, mode);
      var n := |h| + if grep != "" || cut then 1 else 0;
      && |h| >= 1
      && |r| == n + |shown|
      && r[..|h| - 1] == h[..|h| - 1]
      && r[n - 1] == h[|h| - 1]
      && (grep != "" || cut ==> r[|h| - 1] == InfoText(grep, |shown|, cut, |parts.outputs|, mode))
  {
    var parts := Partition(lines);
    PartitionHeaders(lines);
    var (shown, cut) := Truncate(Matched(parts.outputs, grep), maxLines, mode);
    var note := if cut || grep != "" then Some(InfoText(grep, |shown|, cut, |parts.outputs|, mode)) else None;
    AssembleSpec(parts.headers, note, shown);
  }

  // ---------------------------------------------------------------------------
  // `_truncate_section` and `_filter_batch_output`

  /** The first line of one command's section in a batch reply. */
  predicate IsSectionHeader(line: string) {
    && StartsWith(line, "[")
    && (Contains(line, "] SUCCESS") || Contains(line, "] FAILED") || Contains(line, "] SKIPPED"))
  }

  /** The note that takes the place of the dropped lines. */
  function DroppedNote(count: int): string {
    "  ... (" + IntToString(count) + " lines truncated)"
  }

  /** `_truncate_section`: a section of at most one line comes back as it is; a longer
      one keeps its header first. */
  function TruncateSection(lines: seq<string>, maxLines: int, grep: string): (r: seq<string>)
    ensures |lines| <= 1 ==> r == lines
    ensures |lines| > 1 ==> r != [] && r[0] == lines[0]
    ensures maxLines > 0 ==> |r| <= maxLines + 2
  {
    if |lines| <= 1 then lines
    else
      var content := Matched(lines[1..], grep);
      if maxLines != 0 && |content| > maxLines then
        [lines[0]] + [DroppedNote(|content| - maxLines)] + Tail(content, maxLines)
      else [lines[0]] + content
  }

  /** After the header, a section keeps the content lines that contain the pattern,
      in order; when a positive limit is exceeded only the last `maxLines` of them
      remain, behind a note that counts exactly the dropped ones. */
  lemma TruncateSectionSpec(lines: seq<string>, maxLines: int, grep: string)
    requires |lines| > 1
    ensures var r := TruncateSection(lines, maxLines, grep);
      var content := Matched(lines[1..], grep);
      && IsSubsequence(content, lines[1..])
      && (grep != "" ==> forall k :: 0 <= k < |content| ==> Contains(content[k], grep))
      && (0 < maxLines < |content| ==>
            && |r| == maxLines + 2
            && r[1] == DroppedNote(|content| - maxLines)
            && r[2..] == content[|content| - maxLines..])
      && (maxLines == 0 || |content| <= maxLines ==> r[1..] == content)
  {
    var idx := MatchedPicks(lines[1..], grep);
    assert Picks(Matched(lines[1..], grep), lines[1..], idx);
  }

  /** The state of the loop of `_filter_batch_output`: the lines emitted so far, the
      section being collected, and whether a section has started. */
  datatype Sectioned = Sectioned(emitted: seq<string>, section: seq<string>, inSection: bool)

  /** The loop of `_filter_batch_output` over the lines, for any test of a section
      header and any treatment of a finished section: a section is flushed when the
      next header arrives (and only if it is non-empty), and lines before the first
      header are emitted as they come. */
  function Scan(lines: seq<string>, header: string -> bool, flush: seq<string> -> seq<string>): Sectioned {
    if lines == [] then Sectioned([], [], false)
    else
      var s := Scan(lines[..|lines| - 1], header, flush);
      var line := lines[|lines| - 1];
      if header(line) then Sectioned(s.emitted + (if s.section != [] then flush(s.section) else []), [line], true)
      else if s.inSection then s.(section := s.section + [line])
      else s.(emitted := s.emitted + [line])
  }

  /** `_truncate_section` with the filter's settings. */
  function Trimmer(maxLines: int, grep: string): seq<string> -> seq<string> {
    section => TruncateSection(section, maxLines, grep)
  }

  /** The lines emitted for the section left over at the end. */
  function Flush(section: seq<string>, maxLines: int, grep: string): seq<string> {
    if section != [] then TruncateSection(section, maxLines, grep) else []
  }

  function Sections(lines: seq<string>, maxLines: int, grep: string): Sectioned {
    Scan(lines, IsSectionHeader, Trimmer(maxLines, grep))
  }

  /** The lines `_filter_batch_output` joins, when a limit or a pattern is given. */
  function FilteredBatchLines(lines: seq<string>, maxLines: int, grep: string): seq<string> {
    var s := Sections(lines, maxLines, grep);
    s.emitted + Flush(s.section, maxLines, grep)
  }

  /** `_filter_batch_output`: the reply unchanged when neither a limit nor a pattern
      is given. */
  function FilterBatchOutput(result: string, maxLines: int, grep: string): (r: string)
    ensures maxLines == 0 && grep == "" ==> r == result
  {
    if maxLines == 0 && grep == "" then result else Unlines(FilteredBatchLines(Lines(result), maxLines, grep))
  }

  /** The loop of `_filter_batch_output`. */
  method RunFilterBatchOutput(result: string, maxLines: int, grep: string) returns (r: string)
    ensures r == FilterBatchOutput(result, maxLines, grep)
  {
    if maxLines == 0 && grep == "" {
      return result;
    }
    var lines := Lines(result);
    var emitted, section, inSection := [], [], false;
    var i := 0;
    while i < |lines|
      invariant 0 <= i <= |lines|
      invariant Sectioned(emitted, section, inSection) == Sections(lines[..i], maxLines, grep)
    {
      PrefixOfPrefix(lines, i);
      var line := lines[i];
      if IsSectionHeader(line) {
        emitted := emitted + Flush(section, maxLines, grep);
        section := [line];
        inSection := true;
      } else if inSection {
        section := section + [line];
      } else {
        emitted := emitted + [line];
      }
      i := i + 1;
    }
    TakeAll(lines, i);
    r := Unlines(emitted + Flush(section, maxLines, grep));
  }

  /** Before the first header every line is emitted as it comes. From that header on
      a section is being collected, and the lines up to and including the header open
      the emitted lines followed by the section, provided a flushed section keeps its
      first line first. */
  lemma {:induction false} ScanPassThrough(lines: seq<string>, header: string -> bool, flush: seq<string> -> seq<string>)
    requires forall section :: section != [] ==> flush(section) != [] && flush(section)[0] == section[0]
    ensures var s := Scan(lines, header, flush);
      match FirstWhere(lines, header)
      case None => s == Sectioned(lines, [], false)
      case Some(p) =>
        && s.inSection && s.section != []
        && p + 1 <= |s.emitted| + 1
        && (s.emitted + s.section)[..p + 1] == lines[..p + 1]
  {
    if lines != [] {
      var init := lines[..|lines| - 1];
      var line := lines[|lines| - 1];
      ScanPassThrough(init, header, flush);
      match FirstWhere(init, header)
      case Some(p) =>
        FirstWhereIs(lines, header, p);
        assert lines[..p + 1] == init[..p + 1];
        ScanAfterFirst(lines, header, flush, p);
      case None =>
        if header(line) {
          FirstWhereIs(lines, header, |init|);
          ScanAtFirst(lines, header, flush);
        } else {
          FirstWhereIs(lines, header, |lines|);
          ScanBeforeFirst(lines, header, flush);
        }
    }
  }

  /** One step of `ScanPassThrough` before the first header. */
  lemma ScanBeforeFirst(lines: seq<string>, header: string -> bool, flush: seq<string> -> seq<string>)
    requires lines != [] && !header(lines[|lines| - 1])
    requires Scan(lines[..|lines| - 1], header, flush) == Sectioned(lines[..|lines| - 1], [], false)
    ensures Scan(lines, header, flush) == Sectioned(lines, [], false)
  {
    InitLast(lines);
  }

  /** One step of `ScanPassThrough` at the first header. */
  lemma ScanAtFirst(lines: seq<string>, header: string -> bool, flush: seq<string> -> seq<string>)
    requires lines != [] && header(lines[|lines| - 1])
    requires Scan(lines[..|lines| - 1], header, flush) == Sectioned(lines[..|lines| - 1], [], false)
    ensures var s := Scan(lines, header, flush);
      && s.inSection && s.section != []
      && |lines| <= |s.emitted| + 1
      && (s.emitted + s.section)[..|lines|] == lines[..|lines|]
  {
    var init, line := lines[..|lines| - 1], lines[|lines| - 1];
    assert init + [] == init;
    assert Scan(lines, header, flush) == Sectioned(init, [line], true);
    assert init + [line] == lines;
  }

  /** One step of `ScanPassThrough` past the first header. */
  lemma ScanAfterFirst(lines: seq<string>, header: string -> bool, flush: seq<string> -> seq<string>, p: nat)
    requires forall section :: section != [] ==> flush(section) != [] && flush(section)[0] == section[0]
    requires p + 1 < |lines|
    requires var s0 := Scan(lines[..|lines| - 1], header, flush);
      && s0.inSection && s0.section != []
      && p + 1 <= |s0.emitted| + 1
      && (s0.emitted + s0.section)[..p + 1] == lines[..p + 1]
    ensures var s := Scan(lines, header, flush);
      && s.inSection && s.section != []
      && p + 1 <= |s.emitted| + 1
      && (s.emitted + s.section)[..p + 1] == lines[..p + 1]
  {
    var line := lines[|lines| - 1];
    var s0 := Scan(lines[..|lines| - 1], header, flush);
    if header(line) {
      var flushed := flush(s0.section);
      PrefixAcross(s0.emitted, s0.section, flushed, p + 1);
      PrefixGrow(s0.emitted + flushed, [line], p + 1);
    } else {
      PrefixGrow(s0.emitted + s0.section, [line], p + 1);
      ConcatAssoc(s0.emitted, s0.section, [line]);
    }
  }

  /** A section is being collected exactly when one has started, and it always opens
      with its header line. */
  lemma {:induction false} ScanSections(lines: seq<string>, header: string -> bool, flush: seq<string> -> seq<string>)
    ensures var s := Scan(lines, header, flush);
      && (s.inSection <==> s.section != [])
      && (s.section != [] ==> header(s.section[0]))
  {
    if lines != [] {
      ScanSections(lines[..|lines| - 1], header, flush);
    }
  }

  /** Two continuations that agree on their first element agree on a prefix that
      reaches at most one element past `e`. */
  lemma PrefixAcross<T>(e: seq<T>, a: seq<T>, b: seq<T>, n: nat)
    requires n <= |e| + 1 && a != [] && b != [] && a[0] == b[0]
    ensures (e + a)[..n] == (e + b)[..n]
  {
    assert forall k :: 0 <= k < n ==> (e + a)[k] == (e + b)[k];
  }

  /** Appending leaves a prefix alone. */
  lemma PrefixGrow<T>(x: seq<T>, y: seq<T>, n: nat)
    requires n <= |x|
    ensures (x + y)[..n] == x[..n]
  {
  }

  /** The lines `_filter_batch_output` joins start with the lines before the first
      section header, untouched, and that header; a reply with no section header
      comes through whole. */
  lemma FilteredBatchPassThrough(lines: seq<string>, maxLines: int, grep: string)
    ensures var r := FilteredBatchLines(lines, maxLines, grep);
      match FirstWhere(lines, IsSectionHeader)
      case None => r == lines
      case Some(p) => p < |r| && r[..p + 1] == lines[..p + 1]
  {
    var trim := Trimmer(maxLines, grep);
    forall section | section != []
      ensures trim(section) != [] && trim(section)[0] == section[0]
    {
    }
    ScanPassThrough(lines, IsSectionHeader, trim);
    var s := Sections(lines, maxLines, grep);
    if FirstWhere(lines, IsSectionHeader).Some? {
      var p := FirstWhere(lines, IsSectionHeader).value;
      PrefixAcross(s.emitted, s.section, Flush(s.section, maxLines, grep), p + 1);
    }
  }
}
