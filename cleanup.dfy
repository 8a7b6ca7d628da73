/**
 * Post-processing of the output `Shell.run_command` collected once the END marker
 * arrived (core/shell.py): line-ending normalisation, cut at the END marker, exit
 * code extraction, removal of marker and echo noise, and the line filter.
 * Each `re.sub` of the source becomes an `Eraser`: a hand-written matcher that gives
 * the length of the match starting at a position, and a left-to-right scan that
 * drops every non-overlapping match.
 */
module Cleanup {
  import opened Wrappers
  import opened Text
  import opened Config

  // ---------------------------------------------------------------------------
  // Line endings

  /** `s.replace('\r\n', '\n')`. */
  function CrLfToLf(s: string): (r: string)
    ensures |r| <= |s|
    decreases |s|
  {
    if |s| >= 2 && s[0] == '\r' && s[1] == '\n' then "\n" + CrLfToLf(s[2..])
    else if s == [] then []
    else [s[0]] + CrLfToLf(s[1..])
  }

  /** `s.replace('\r', '\n')`. */
  function CrToLf(s: string): (r: string)
    ensures |r| == |s| && '\r' !in r
    ensures forall k :: 0 <= k < |s| ==> r[k] == (if s[k] == '\r' then '\n' else s[k])
  {
    seq(|s|, k requires 0 <= k < |s| => if s[k] == '\r' then '\n' else s[k])
  }

  function Normalize(s: string): (r: string)
    ensures '\r' !in r
  {
    CrToLf(CrLfToLf(s))
  }

  /** Text without carriage returns is left alone by the first replacement. */
  lemma {:induction false} CrLfToLfIdentity(s: string)
    requires '\r' !in s
    ensures CrLfToLf(s) == s
    decreases |s|
  {
    if s != [] {
      assert s[0] != '\r';
      assert '\r' !in s[1..];
      CrLfToLfIdentity(s[1..]);
      assert [s[0]] + s[1..] == s;
    }
  }

  /** Normalising twice is normalising once. */
  lemma NormalizeIdempotent(s: string)
    ensures Normalize(Normalize(s)) == Normalize(s)
  {
    var n := Normalize(s);
    CrLfToLfIdentity(n);
    assert CrToLf(n) == n;
  }

  // ---------------------------------------------------------------------------
  // Cut at the END marker

  /** `output[:output.find(marker)]` when the marker occurs, else the output itself. */
  function CutAtMarker(s: string, marker: string): (r: string)
    ensures StartsWith(s, r)
    ensures marker != [] ==> !Contains(r, marker)
    ensures !Contains(s, marker) ==> r == s
  {
    match Find(s, marker)
    case None => s
    case Some(p) =>
      var r := s[..p];
      assert StartsAt(s, 0, r);
      assert marker != [] ==> !Contains(r, marker) by {
        if marker != [] {
          forall i | 0 <= i <= |r| && StartsAt(r, i, marker)
            ensures StartsAt(s, i, marker) && i < p
          {
            assert s[i..i + |marker|] == r[i..i + |marker|];
          }
        }
      }
      r
  }

  /** Nothing after the first END marker can reach the cleaned output: replacing
      everything after it changes nothing. */
  lemma CutIgnoresTail(s: string, marker: string, t: string)
    requires Contains(s, marker)
    ensures CutAtMarker(s[..Find(s, marker).value + |marker|] + t, marker) == CutAtMarker(s, marker)
  {
    var n := Find(s, marker).value + |marker|;
    var u := s[..n] + t;
    assert u[..n] == s[..n];
    CutSharedPrefix(s, u, marker, Find(s, marker).value);
  }

  /** Two texts that agree up to the end of the first marker of one are cut alike. */
  lemma CutSharedPrefix(s: string, u: string, marker: string, p: nat)
    requires Find(s, marker) == Some(p)
    requires p + |marker| <= |u| && u[..p + |marker|] == s[..p + |marker|]
    ensures CutAtMarker(u, marker) == CutAtMarker(s, marker)
  {
    var n := p + |marker|;
    SharedSlice(s, u, n, p, n);
    assert StartsAt(u, p, marker);
    forall j | 0 <= j < p
      ensures !StartsAt(u, j, marker)
    {
      assert !StartsAt(s, j, marker);
      SharedSlice(s, u, n, j, j + |marker|);
    }
    FindFirst(u, marker, p);
    CutAt(u, marker, p);
    CutAt(s, marker, p);
    SharedSlice(s, u, n, 0, p);
  }

  /** Texts with a common prefix agree on every slice inside it. */
  lemma SharedSlice(s: string, u: string, n: nat, a: nat, b: nat)
    requires n <= |s| && n <= |u| && u[..n] == s[..n] && a <= b <= n
    ensures u[a..b] == s[a..b]
  {
    assert forall k :: a <= k < b ==> u[k] == u[..n][k] == s[..n][k] == s[k];
  }

  /** The cut keeps what comes before the first occurrence of the marker. */
  lemma CutAt(s: string, marker: string, p: nat)
    requires Find(s, marker) == Some(p)
    ensures p <= |s| && CutAtMarker(s, marker) == s[..p]
  {
  }

  // ---------------------------------------------------------------------------
  // Character classes and spans

  datatype CharClass = Digits | Hex | Spaces | NotQuote | NotNewline | HostChars | PathChars

  /** `\w` restricted to ASCII. */
  predicate IsWordChar(c: char) {
    ('a' <= c <= 'z') || ('A' <= c <= 'Z') || IsDigit(c) || c == '_'
  }

  predicate InClass(c: char, cls: CharClass) {
    match cls
    case Digits => IsDigit(c)
    case Hex => IsHexDigit(c)
    case Spaces => IsSpace(c)
    case NotQuote => c != '"'
    case NotNewline => c != '\n'
    case HostChars => IsWordChar(c) || c == '@' || c == '-' || c == '.'
    case PathChars => IsWordChar(c) || c == '/'
  }

  /** Length of the longest run of `cls` characters starting at `i` (a greedy `[...]*`). */
  function Span(s: string, i: nat, cls: CharClass): (n: nat)
    requires i <= |s|
    ensures i + n <= |s|
    ensures forall j :: i <= j < i + n ==> InClass(s[j], cls)
    ensures i + n == |s| || !InClass(s[i + n], cls)
    decreases |s| - i
  {
    if i < |s| && InClass(s[i], cls) then 1 + Span(s, i + 1, cls) else 0
  }

  // ---------------------------------------------------------------------------
  // Exit-code frame: {exit_marker}(\d+){exit_marker}

  /** The exit marker `__EXIT_<id>__`; it starts with '_', so a greedy digit run
      before it is the only way to match. */
  function ExitMarker(exitId: string): string {
    ExitPrefix + exitId + "__"
  }

  /** Length of the digit run of an exit frame starting at `i`, if one does. */
  function FrameDigits(s: string, i: nat, em: string): (d: Option<nat>)
    requires i <= |s|
    ensures d.Some? ==> d.value > 0 && i + 2 * |em| + d.value <= |s|
  {
    if StartsAt(s, i, em) then
      var d := Span(s, i + |em|, Digits);
      if d > 0 && StartsAt(s, i + |em| + d, em) then Some(d) else None
    else None
  }

  /** `re.search` for the frame: the first position at or after `i` where one starts. */
  function FirstFrame(s: string, em: string, i: nat): (r: Option<nat>)
    requires i <= |s|
    ensures r.Some? ==> i <= r.value <= |s| && FrameDigits(s, r.value, em).Some?
    ensures r.Some? ==> forall j :: i <= j < r.value ==> FrameDigits(s, j, em).None?
    ensures r.None? ==> forall j :: i <= j <= |s| ==> FrameDigits(s, j, em).None?
    decreases |s| - i
  {
    if FrameDigits(s, i, em).Some? then Some(i)
    else if i == |s| then None
    else FirstFrame(s, em, i + 1)
  }

  /** `int(exit_match.group(1))` of the first frame, or None without a frame. */
  function ExitCode(s: string, em: string): Option<nat> {
    match FirstFrame(s, em, 0)
    case None => None
    case Some(j) => Some(FrameCode(s, em, j))
  }

  /** The value of the digits of the frame at `j`. */
  function FrameCode(s: string, em: string, j: nat): nat
    requires j <= |s| && FrameDigits(s, j, em).Some?
  {
    var d := Span(s, j + |em|, Digits);
    ParseDigits(s[j + |em|..j + |em| + d])
  }

  /** The code of a frame is the value of the digit run the frame matched. */
  lemma FrameCodeIs(s: string, em: string, j: nat, digits: string)
    requires j <= |s| && FrameDigits(s, j, em) == Some(|digits|)
    requires j + |em| + |digits| <= |s| && s[j + |em|..j + |em| + |digits|] == digits
    ensures IsDigits(digits) && FrameCode(s, em, j) == ParseDigits(digits)
  {
  }

  /** There is no exit code exactly when no position starts a frame. */
  lemma ExitCodeAbsent(s: string, em: string)
    ensures ExitCode(s, em).None? <==> forall j :: 0 <= j <= |s| ==> FrameDigits(s, j, em).None?
  {
    match FirstFrame(s, em, 0)
    case None =>
    case Some(j) => assert FrameDigits(s, j, em).Some?;
  }

  /** A frame echoed after the command's own output `pre` yields exactly the code it
      carries, provided no exit marker begins inside `pre`. */
  lemma ExitCodeOfFrame(pre: string, exitId: string, n: nat, rest: string)
    requires var em := ExitMarker(exitId); forall j :: 0 <= j < |pre| ==> !StartsAt(pre + em, j, em)
    ensures var em := ExitMarker(exitId);
      ExitCode(pre + (em + NatToString(n) + em + rest), em) == Some(n)
  {
    var em := ExitMarker(exitId);
    assert em[0] == '_';
    ExitCodeAfter(pre, em, NatToString(n), rest);
    ParseNatToString(n);
  }

  /** The code of the first frame, at position `|pre|`, is the value of its digits. */
  lemma ExitCodeAfter(pre: string, em: string, digits: string, rest: string)
    requires em != [] && em[0] == '_' && IsDigits(digits)
    requires forall j :: 0 <= j < |pre| ==> !StartsAt(pre + em, j, em)
    ensures ExitCode(pre + (em + digits + em + rest), em) == Some(ParseDigits(digits))
  {
    var t := em + digits + em + rest;
    FrameAfter(pre, em, digits, rest);
    DigitsAfter(pre, em, digits, rest);
    assert t[..|em|] == em;
    NoFrameBefore(pre, t, em);
    ExitCodeAt(pre + t, em, |pre|, digits);
  }

  /** The first frame, at `p`, carrying `digits`, gives their value as the code. */
  lemma ExitCodeAt(s: string, em: string, p: nat, digits: string)
    requires p + |em| + |digits| <= |s| && FrameDigits(s, p, em) == Some(|digits|)
    requires s[p + |em|..p + |em| + |digits|] == digits
    requires forall j :: 0 <= j < p ==> FrameDigits(s, j, em).None?
    ensures ExitCode(s, em) == Some(ParseDigits(digits))
  {
    FirstFrameAt(s, em, 0, p);
    FrameCodeIs(s, em, p, digits);
  }

  /** A frame after `pre` starts at `|pre|` and carries `digits`. */
  lemma FrameAfter(pre: string, em: string, digits: string, rest: string)
    requires em != [] && em[0] == '_' && IsDigits(digits)
    ensures FrameDigits(pre + (em + digits + em + rest), |pre|, em) == Some(|digits|)
  {
    FrameAtStart(em, digits, rest);
    FrameShift(pre, em + digits + em + rest, 0, em);
  }

  /** The digits of a frame after `pre` sit right after its first marker. */
  lemma DigitsAfter(pre: string, em: string, digits: string, rest: string)
    ensures |pre| + |em| + |digits| <= |pre + (em + digits + em + rest)|
    ensures (pre + (em + digits + em + rest))[|pre| + |em|..|pre| + |em| + |digits|] == digits
  {
    var t := em + digits + em + rest;
    assert t[|em|..|em| + |digits|] == digits;
    SliceShift(pre, t, |em|, |em| + |digits|);
  }

  /** No frame can start inside `pre` when the text goes on with `em` and no marker
      begins inside `pre` there. */
  lemma NoFrameBefore(pre: string, t: string, em: string)
    requires |em| <= |t| && t[..|em|] == em
    requires forall j :: 0 <= j < |pre| ==> !StartsAt(pre + em, j, em)
    ensures forall j :: 0 <= j < |pre| ==> FrameDigits(pre + t, j, em).None?
  {
    var s, u := pre + t, pre + em;
    forall j | 0 <= j < |pre|
      ensures !StartsAt(s, j, em)
    {
      assert !StartsAt(u, j, em);
      forall k | j <= k < j + |em|
        ensures s[k] == u[k]
      {
        if k >= |pre| {
          assert t[k - |pre|] == t[..|em|][k - |pre|];
        }
      }
      assert s[j..j + |em|] == u[j..j + |em|];
    }
  }

  /** The search from `i` finds `p` when a frame starts at `p` and none starts before it. */
  lemma {:induction false} FirstFrameAt(s: string, em: string, i: nat, p: nat)
    requires i <= p <= |s| && FrameDigits(s, p, em).Some?
    requires forall j :: i <= j < p ==> FrameDigits(s, j, em).None?
    ensures FirstFrame(s, em, i) == Some(p)
    decreases p - i
  {
    if i < p {
      FirstFrameAt(s, em, i + 1, p);
    }
  }

  /** A slice of `t` is the same slice of `pre + t`, shifted by `|pre|`. */
  lemma SliceShift(pre: string, t: string, i: nat, j: nat)
    requires i <= j <= |t|
    ensures (pre + t)[|pre| + i..|pre| + j] == t[i..j]
  {
  }

  /** A frame of `t` at `i` is the same frame of `pre + t` at `|pre| + i`. */
  lemma FrameShift(pre: string, t: string, i: nat, em: string)
    requires i <= |t|
    ensures FrameDigits(pre + t, |pre| + i, em) == FrameDigits(t, i, em)
  {
    StartsAtShift(pre, t, i, em);
    if StartsAt(t, i, em) {
      SpanShift(pre, t, i + |em|, Digits);
      StartsAtShift(pre, t, i + |em| + Span(t, i + |em|, Digits), em);
    }
  }

  lemma StartsAtShift(pre: string, t: string, i: nat, p: string)
    requires i <= |t|
    ensures StartsAt(pre + t, |pre| + i, p) <==> StartsAt(t, i, p)
  {
    if i + |p| <= |t| {
      SliceShift(pre, t, i, i + |p|);
    }
  }

  lemma {:induction false} SpanShift(pre: string, t: string, i: nat, cls: CharClass)
    requires i <= |t|
    ensures Span(pre + t, |pre| + i, cls) == Span(t, i, cls)
    decreases |t| - i
  {
    if i < |t| {
      assert (pre + t)[|pre| + i] == t[i];
      SpanShift(pre, t, i + 1, cls);
    }
  }

  /** The digit run of a frame at position 0 is the digits between the two markers. */
  lemma FrameAtStart(em: string, digits: string, rest: string)
    requires em != [] && em[0] == '_' && IsDigits(digits)
    ensures FrameDigits(em + digits + em + rest, 0, em) == Some(|digits|)
  {
    var s := em + digits + em + rest;
    assert StartsAt(s, 0, em) by { assert s[..|em|] == em; }
    assert s[|em|..|em| + |digits|] == digits;
    SpanOfDigits(s, |em|, digits);
    assert StartsAt(s, |em| + |digits|, em) by { assert s[|em| + |digits|..|em| + |digits| + |em|] == em; }
  }

  /** The digit run at `i` is exactly `digits` when `digits` is followed by '_'. */
  lemma {:induction false} SpanOfDigits(s: string, i: nat, digits: string)
    requires i + |digits| < |s| && s[i..i + |digits|] == digits && s[i + |digits|] == '_'
    requires forall k :: 0 <= k < |digits| ==> IsDigit(digits[k])
    ensures Span(s, i, Digits) == |digits|
    decreases |digits|
  {
    if digits != [] {
      assert s[i] == digits[0];
      assert s[i + 1..i + 1 + |digits[1..]|] == digits[1..];
      SpanOfDigits(s, i + 1, digits[1..]);
    }
  }

  // ---------------------------------------------------------------------------
  // Erasers: the `re.sub(..., '', output)` calls

  datatype Eraser =
    | ExitFrame(em: string)           // {exit_marker}\d+{exit_marker}\n?
    | MarkerToken                     // ___MCP_MARKER___[a-f0-9]+
    | ExitPair                        // __EXIT_[a-f0-9]+__\d*__EXIT_[a-f0-9]+__
    | ExitToken                       // __EXIT_[a-f0-9]+__
    | WrappedEcho(command: string)    // <command>;\s*echo\s+"[^"]*";\s*echo\s+"[^"]*"
    | FragmentLine(fragment: string)  // ^.*<fragment>.*$ with re.MULTILINE
    | EchoOf(prefix: string)          // echo\s+"<prefix>[^"]*"

  /** `__EXIT_[a-f0-9]+__` at `i`. */
  function ExitTokenAt(s: string, i: nat): (r: Option<nat>)
    requires i <= |s|
    ensures r.Some? ==> r.value > 0 && i + r.value <= |s|
  {
    if StartsAt(s, i, ExitPrefix) then
      var h := Span(s, i + |ExitPrefix|, Hex);
      if h > 0 && StartsAt(s, i + |ExitPrefix| + h, "__") then Some(|ExitPrefix| + h + 2) else None
    else None
  }

  /** `echo\s+"<prefix>[^"]*"` at `i`. */
  function EchoQuotedAt(s: string, i: nat, prefix: string): (r: Option<nat>)
    requires i <= |s|
    ensures r.Some? ==> r.value > 0 && i + r.value <= |s|
  {
    if StartsAt(s, i, "echo") then
      var w := Span(s, i + 4, Spaces);
      var open := i + 4 + w;
      if w > 0 && open < |s| && s[open] == '"' && StartsAt(s, open + 1, prefix) then
        var q := Span(s, open + 1 + |prefix|, NotQuote);
        var close := open + 1 + |prefix| + q;
        if close < |s| then Some(close + 1 - i) else None
      else None
    else None
  }

  /** `re.escape(command) + r';\s*echo\s+"[^"]*";\s*echo\s+"[^"]*"'` at `i`. */
  function WrappedEchoAt(s: string, i: nat, command: string): (r: Option<nat>)
    requires i <= |s|
    ensures r.Some? ==> r.value > 0 && i + r.value <= |s|
  {
    var a := i + |command|;
    if StartsAt(s, i, command) && a < |s| && s[a] == ';' then
      var b := a + 1 + Span(s, a + 1, Spaces);
      match EchoQuotedAt(s, b, "")
      case None => None
      case Some(e1) =>
        var c := b + e1;
        if c < |s| && s[c] == ';' then
          var d := c + 1 + Span(s, c + 1, Spaces);
          match EchoQuotedAt(s, d, "")
          case None => None
          case Some(e2) => Some(d + e2 - i)
        else None
    else None
  }

  /** `^.*<fragment>.*$` (re.MULTILINE) at `i`: `i` starts a line, the first occurrence
      of the fragment from `i` starts on that line, and the match runs to the end of
      the line on which the fragment ends. */
  function FragmentLineAt(s: string, i: nat, fragment: string): (r: Option<nat>)
    requires i <= |s|
    ensures r.Some? ==> i + r.value <= |s|
  {
    if i == 0 || s[i - 1] == '\n' then
      var lineEnd := i + Span(s, i, NotNewline);
      match FindFrom(s, fragment, i)
      case None => None
      case Some(k) =>
        if k <= lineEnd then
          var after := k + |fragment|;
          Some(after + Span(s, after, NotNewline) - i)
        else None
    else None
  }

  /** Length of the match of `e` starting at `i`, if there is one. */
  function MatchAt(e: Eraser, s: string, i: nat): (r: Option<nat>)
    requires i <= |s|
    ensures r.Some? ==> i + r.value <= |s|
  {
    match e
    case ExitFrame(em) =>
      (match FrameDigits(s, i, em)
       case None => None
       case Some(d) =>
         var end := i + 2 * |em| + d;
         Some(if end < |s| && s[end] == '\n' then end + 1 - i else end - i))
    case MarkerToken =>
      if StartsAt(s, i, MarkerPrefix) then
        var h := Span(s, i + |MarkerPrefix|, Hex);
        if h > 0 then Some(|MarkerPrefix| + h) else None
      else None
    case ExitPair =>
      (match ExitTokenAt(s, i)
       case None => None
       case Some(a) =>
         var d := Span(s, i + a, Digits);
         match ExitTokenAt(s, i + a + d)
         case None => None
         case Some(b) => Some(a + d + b))
    case ExitToken => ExitTokenAt(s, i)
    case WrappedEcho(command) => WrappedEchoAt(s, i, command)
    case FragmentLine(fragment) => FragmentLineAt(s, i, fragment)
    case EchoOf(prefix) => EchoQuotedAt(s, i, prefix)
  }

  /** `re.sub(pattern, '', s[i:])`: scan left to right, drop each non-empty match and
      resume after it; keep every other character. */
  function EraseFrom(e: Eraser, s: string, i: nat): (r: string)
    requires i <= |s|
    ensures |r| <= |s| - i
    decreases |s| - i
  {
    if i == |s| then []
    else match MatchAt(e, s, i)
      case Some(n) =>
        if n > 0 then EraseFrom(e, s, i + n) else [s[i]] + EraseFrom(e, s, i + 1)
      case None => [s[i]] + EraseFrom(e, s, i + 1)
  }

  function Erase(e: Eraser, s: string): (r: string)
    ensures |r| <= |s|
  {
    EraseFrom(e, s, 0)
  }

  /** Where the pattern never matches, the substitution leaves the text unchanged. */
  lemma {:induction false} EraseNothing(e: Eraser, s: string, i: nat)
    requires i <= |s|
    requires forall j :: i <= j < |s| ==> MatchAt(e, s, j).None?
    ensures EraseFrom(e, s, i) == s[i..]
    decreases |s| - i
  {
    if i < |s| {
      EraseNothing(e, s, i + 1);
      assert s[i..] == [s[i]] + s[i + 1..];
    }
  }

  /** The substitutions that follow exit-code extraction, in source order; the
      command-fragment line is erased only for commands longer than 20 characters. */
  function Erasers(command: string): (es: seq<Eraser>)
    ensures |es| == if |command| > 20 then 7 else 6
  {
    [MarkerToken, ExitPair, ExitToken, WrappedEcho(command)]
      + (if |command| > 20 then [FragmentLine(command[..20])] else [])
      + [EchoOf(MarkerPrefix), EchoOf(ExitPrefix)]
  }

  /** The substitutions `es` applied one after the other, the first one first. */
  function EraseAll(es: seq<Eraser>, s: string): (r: string)
    ensures |r| <= |s|
  {
    if es == [] then s else Erase(es[|es| - 1], EraseAll(es[..|es| - 1], s))
  }

  /** The noise removal that follows exit-code extraction. */
  function Scrub(s: string, command: string): string {
    EraseAll(Erasers(command), s)
  }

  // ---------------------------------------------------------------------------
  // Line filter

  /** `re.match(r'^[\w@\-\.]+:[/\w]*\s*[#$]\s*$', line)`: a host part, a colon, a
      path part, then only whitespace around a single '#' or '$'. The two classes
      exclude ':', whitespace, '#' and '$', so the greedy runs are the only split. */
  predicate IsPromptLine(l: string) {
    var h := Span(l, 0, HostChars);
    0 < h < |l| && l[h] == ':' &&
    var p := h + 1 + Span(l, h + 1, PathChars);
    Strip(l[p..]) == "#" || Strip(l[p..]) == "$"
  }

  /** The skip tests of the cleanup loop, for a stripped line; `started` is whether a
      line has been kept already. */
  predicate SkipLine(ls: string, command: string, started: bool) {
    (!started && ls == "")
    || IsPromptLine(ls)
    || Contains(ls, MarkerPrefix) || Contains(ls, ExitPrefix)
    || (Contains(ls, Prefix(command, 30)) && Contains(ls, "echo"))
  }

  /** The lines the cleanup loop keeps, stripped, in order. */
  function Keep(lines: seq<string>, command: string): seq<string>
    decreases |lines|
  {
    if lines == [] then []
    else
      var acc := Keep(lines[..|lines| - 1], command);
      var ls := Strip(lines[|lines| - 1]);
      if SkipLine(ls, command, acc != []) then acc else acc + [ls]
  }

  /** The `while clean_lines and not clean_lines[-1]: pop()` loop. */
  function DropTrailingBlank(ls: seq<string>): (r: seq<string>)
    ensures |r| <= |ls| && r == ls[..|r|]
    ensures r == [] || r[|r| - 1] != ""
    ensures forall k :: |r| <= k < |ls| ==> ls[k] == ""
  {
    if ls != [] && ls[|ls| - 1] == "" then DropTrailingBlank(ls[..|ls| - 1]) else ls
  }

  predicate CleanLine(l: string) {
    IsStripped(l) && '\n' !in l && !Contains(l, MarkerPrefix) && !Contains(l, ExitPrefix) && !IsPromptLine(l)
  }

  /** Every kept line is stripped, holds no newline, no marker and is no prompt, and
      the first kept line is not empty. */
  lemma {:induction false} KeepClean(lines: seq<string>, command: string)
    requires forall k :: 0 <= k < |lines| ==> '\n' !in lines[k]
    ensures forall k :: 0 <= k < |Keep(lines, command)| ==> CleanLine(Keep(lines, command)[k])
    ensures Keep(lines, command) != [] ==> Keep(lines, command)[0] != ""
    decreases |lines|
  {
    if lines != [] {
      var init := lines[..|lines| - 1];
      KeepClean(init, command);
    }
  }

  /** The lines the whole cleanup keeps from the cut, scrubbed text. */
  function CleanedLines(s: string, command: string): seq<string> {
    DropTrailingBlank(Keep(Lines(Strip(s)), command))
  }

  /** The lines the cleanup keeps from lines without breaks (as `Lines` gives) are
      clean, and neither the first nor the last is empty. */
  lemma CleanedLinesShape(lines: seq<string>, command: string)
    requires forall k :: 0 <= k < |lines| ==> '\n' !in lines[k]
    ensures forall k :: 0 <= k < |DropTrailingBlank(Keep(lines, command))| ==>
      CleanLine(DropTrailingBlank(Keep(lines, command))[k])
    ensures DropTrailingBlank(Keep(lines, command)) != [] ==>
      DropTrailingBlank(Keep(lines, command))[0] != ""
      && DropTrailingBlank(Keep(lines, command))[|DropTrailingBlank(Keep(lines, command))| - 1] != ""
  {
    KeepClean(lines, command);
    DropKeepsShape(Keep(lines, command));
  }

  /** Dropping trailing blank lines keeps every remaining line and the first one. */
  lemma DropKeepsShape(ls: seq<string>)
    requires forall k :: 0 <= k < |ls| ==> CleanLine(ls[k])
    requires ls != [] ==> ls[0] != ""
    ensures forall k :: 0 <= k < |DropTrailingBlank(ls)| ==> CleanLine(DropTrailingBlank(ls)[k])
    ensures DropTrailingBlank(ls) != [] ==>
      DropTrailingBlank(ls)[0] != "" && DropTrailingBlank(ls)[|DropTrailingBlank(ls)| - 1] != ""
  {
    var r := DropTrailingBlank(ls);
    forall k | 0 <= k < |r|
      ensures CleanLine(r[k])
    {
      assert r[k] == ls[k];
    }
    if r != [] {
      assert r[0] == ls[0];
    }
  }

  /** The cleanup loop and the trailing-pop loop of `run_command`. */
  method CleanLines(lines: seq<string>, command: string) returns (clean: seq<string>)
    ensures clean == DropTrailingBlank(Keep(lines, command))
  {
    clean := [];
    for i := 0 to |lines|
      invariant clean == Keep(lines[..i], command)
    {
      PrefixOfPrefix(lines, i);
      var lineStripped := Strip(lines[i]);
      if clean == [] && lineStripped == "" {
        continue;
      }
      if IsPromptLine(lineStripped) {
        continue;
      }
      if Contains(lineStripped, MarkerPrefix) || Contains(lineStripped, ExitPrefix) {
        continue;
      }
      if Contains(lineStripped, Prefix(command, 30)) && Contains(lineStripped, "echo") {
        continue;
      }
      clean := clean + [lineStripped];
    }
    TakeAll(lines, |lines|);
    while clean != [] && clean[|clean| - 1] == ""
      invariant DropTrailingBlank(clean) == DropTrailingBlank(Keep(lines, command))
    {
      clean := clean[..|clean| - 1];
    }
  }

  // ---------------------------------------------------------------------------
  // The whole post-processing

  /** Exit code and cleaned text of an output in which the END marker arrived. */
  datatype Cleaned = Cleaned(exitCode: Option<nat>, lines: seq<string>)

  /** The exit frames are erased only when an exit code was found; without one the
      text is left as it is. */
  function Unframe(cut: string, em: string): (r: string)
    ensures ExitCode(cut, em).None? ==> r == cut
  {
    if ExitCode(cut, em).Some? then Erase(ExitFrame(em), cut) else cut
  }

  /** The post-processing as a function of the accumulated output. */
  function PostProcess(accumulated: string, command: string, marker: string, em: string): Cleaned {
    var cut := CutAtMarker(Normalize(accumulated), marker);
    Cleaned(ExitCode(cut, em), CleanedLines(Scrub(Unframe(cut, em), command), command))
  }

  /** The post-processing steps of `run_command`, in source order. */
  method PostProcessOutput(accumulated: string, command: string, marker: string, em: string)
    returns (exitCode: Option<nat>, clean: seq<string>)
    ensures Cleaned(exitCode, clean) == PostProcess(accumulated, command, marker, em)
  {
    var output := CrToLf(CrLfToLf(accumulated));
    var markerPos := Find(output, marker);
    if markerPos.Some? {
      output := output[..markerPos.value];
    }
    exitCode := ExitCode(output, em);
    if exitCode.Some? {
      output := Erase(ExitFrame(em), output);
    }
    output := Scrub(output, command);
    clean := CleanLines(Lines(Strip(output)), command);
  }

  /** The exit code is read from the text before the END marker only. */
  lemma ExitCodeBeforeMarker(accumulated: string, command: string, marker: string, em: string)
    requires marker != []
    ensures PostProcess(accumulated, command, marker, em).exitCode
         == ExitCode(CutAtMarker(Normalize(accumulated), marker), em)
    ensures !Contains(CutAtMarker(Normalize(accumulated), marker), marker)
  {
  }

  /** The kept lines of any post-processing are clean, and neither the first nor the
      last is empty. */
  lemma PostProcessShape(accumulated: string, command: string, marker: string, em: string)
    ensures var ls := PostProcess(accumulated, command, marker, em).lines;
      && (forall k :: 0 <= k < |ls| ==> CleanLine(ls[k]))
      && (ls != [] ==> ls[0] != "" && ls[|ls| - 1] != "")
  {
    var cut := CutAtMarker(Normalize(accumulated), marker);
    var text := Scrub(Unframe(cut, em), command);
    CleanedLinesShape(Lines(Strip(text)), command);
  }

  // ---------------------------------------------------------------------------
  // The success report

  /** The STATUS line for an extracted exit code. */
  function StatusLine(code: Option<nat>): string {
    match code
    case None => "STATUS: COMPLETED"
    case Some(n) => if n == 0 then "STATUS: SUCCESS" else "STATUS: COMMAND_FAILED"
  }

  function ExitCodeLine(code: Option<nat>): string {
    match code
    case None => "EXIT_CODE: unknown"
    case Some(n) => "EXIT_CODE: " + NatToString(n)
  }

  /** The `parts` list of a run whose END marker arrived; joined with newlines. */
  function ReportParts(shellId: string, code: Option<nat>, warning: Option<string>, lines: seq<string>): seq<string> {
    var final := Unlines(lines);
    ["SHELL: " + shellId, StatusLine(code), ExitCodeLine(code)]
      + (match warning case Some(w) => [w] case None => [])
      + ["OUTPUT:", if final == "" then "(no output)" else final]
  }

  /** The report's status is SUCCESS exactly for exit code 0, COMMAND_FAILED exactly for
      a non-zero code, and COMPLETED with an unknown code exactly when no code was
      found; the cleaned output (or "(no output)") comes last, after "OUTPUT:". */
  lemma ReportStatus(shellId: string, code: Option<nat>, warning: Option<string>, lines: seq<string>)
    ensures var r := ReportParts(shellId, code, warning, lines);
      && |r| >= 5
      && (r[1] == "STATUS: SUCCESS" <==> code == Some(0))
      && (r[1] == "STATUS: COMMAND_FAILED" <==> code.Some? && code.value != 0)
      && (r[1] == "STATUS: COMPLETED" <==> code.None?)
      && (r[2] == "EXIT_CODE: unknown" <==> code.None?)
      && r[|r| - 2] == "OUTPUT:"
      && r[|r| - 1] == (if Unlines(lines) == "" then "(no output)" else Unlines(lines))
  {
    if code.Some? {
      var digits := NatToString(code.value);
      assert ExitCodeLine(code)[11..] == digits;
      assert "EXIT_CODE: unknown"[11..] == "unknown";
      assert !IsDigit('u');
    }
  }
}
