/**
 * The handful of Python `str` operations the shell manager relies on, written out
 * over `string` (a sequence of Unicode scalar values): whitespace, `split`, `strip`,
 * `in`, `startswith`, `find`, `'\n'.join`, `isdigit`, decimal rendering and parsing,
 * ASCII lower-casing and UTF-8 length.
 */
module Text {
  import opened Wrappers

  /** The characters Python's `str.isspace` (and so `str.split()`, `str.strip()` and
      the regex class `\s`) treat as whitespace. */
  predicate IsSpace(c: char) {
    c == ' ' || c == '\t' || c == '\n' || c == '\r' || c == '\U{000B}' || c == '\U{000C}'
    || ('\U{001C}' <= c <= '\U{001F}') || c == '\U{0085}' || c == '\U{00A0}'
    || c == '\U{1680}' || ('\U{2000}' <= c <= '\U{200A}') || c == '\U{2028}'
    || c == '\U{2029}' || c == '\U{202F}' || c == '\U{205F}' || c == '\U{3000}'
  }

  /** Every character is whitespace: `not s.strip()` in Python. */
  predicate IsBlank(s: string) {
    forall k :: 0 <= k < |s| ==> IsSpace(s[k])
  }

  predicate NoSpace(s: string) {
    forall k :: 0 <= k < |s| ==> !IsSpace(s[k])
  }

  /** No leading and no trailing whitespace: what `str.strip()` returns. */
  predicate IsStripped(s: string) {
    s == [] || (!IsSpace(s[0]) && !IsSpace(s[|s| - 1]))
  }

  // ---------------------------------------------------------------------------
  // Substrings

  /** `s[i:].startswith(p)`. */
  predicate StartsAt(s: string, i: nat, p: string) {
    i + |p| <= |s| && s[i..i + |p|] == p
  }

  predicate StartsWith(s: string, p: string) {
    StartsAt(s, 0, p)
  }

  /** `p in s`. */
  predicate Contains(s: string, p: string) {
    exists i :: 0 <= i <= |s| && StartsAt(s, i, p)
  }

  /** `s.find(p, i)` as an option: the first position at or after `i` where `p` starts. */
  function FindFrom(s: string, p: string, i: nat): (r: Option<nat>)
    requires i <= |s|
    ensures r.Some? ==> i <= r.value <= |s| && StartsAt(s, r.value, p)
    ensures r.Some? ==> forall j :: i <= j < r.value ==> !StartsAt(s, j, p)
    ensures r.None? ==> forall j :: i <= j <= |s| ==> !StartsAt(s, j, p)
    decreases |s| - i
  {
    if StartsAt(s, i, p) then Some(i)
    else if i == |s| then None
    else FindFrom(s, p, i + 1)
  }

  /** `s.find(p)`: the first occurrence of `p`, if any. */
  function Find(s: string, p: string): (r: Option<nat>)
    ensures r.Some? <==> Contains(s, p)
    ensures r.Some? ==> StartsAt(s, r.value, p) && forall j :: 0 <= j < r.value ==> !StartsAt(s, j, p)
  {
    FindFrom(s, p, 0)
  }

  /** The first occurrence is what `Find` reports. */
  lemma FindFirst(s: string, p: string, i: nat)
    requires StartsAt(s, i, p)
    requires forall j :: 0 <= j < i ==> !StartsAt(s, j, p)
    ensures Find(s, p) == Some(i)
  {
    assert Contains(s, p);
  }

  lemma ContainsPrefix(s: string, t: string, p: string)
    requires Contains(s, p)
    ensures Contains(s + t, p)
  {
    var i :| 0 <= i <= |s| && StartsAt(s, i, p);
    assert (s + t)[i..i + |p|] == s[i..i + |p|];
    assert StartsAt(s + t, i, p);
  }

  // ---------------------------------------------------------------------------
  // Lower-casing

  function LowerChar(c: char): char {
    if 'A' <= c <= 'Z' then (c as int + 32) as char else c
  }

  /** `s.lower()` on the ASCII letters. */
  function Lower(s: string): (r: string)
    ensures |r| == |s| && forall k :: 0 <= k < |s| ==> r[k] == LowerChar(s[k])
  {
    seq(|s|, k requires 0 <= k < |s| => LowerChar(s[k]))
  }

  // ---------------------------------------------------------------------------
  // Stripping

  function LStrip(s: string): (r: string)
    ensures |r| <= |s| && r == s[|s| - |r|..]
    ensures r == [] || !IsSpace(r[0])
    ensures IsBlank(s[..|s| - |r|])
  {
    if s != [] && IsSpace(s[0]) then LStrip(s[1..]) else s
  }

  function RStrip(s: string): (r: string)
    ensures |r| <= |s| && r == s[..|r|]
    ensures r == [] || !IsSpace(r[|r| - 1])
    ensures IsBlank(s[|r|..])
  {
    if s != [] && IsSpace(s[|s| - 1]) then RStrip(s[..|s| - 1]) else s
  }

  /** `s.strip()`. */
  function Strip(s: string): (r: string)
    ensures IsStripped(r)
    ensures |r| <= |s|
    ensures forall c :: c in r ==> c in s
  {
    RStrip(LStrip(s))
  }

  lemma {:induction false} StripBlank(s: string)
    ensures Strip(s) == [] <==> IsBlank(s)
  {
    var l := LStrip(s);
    if l == [] {
      assert s[..|s|] == s;
    } else {
      assert !IsSpace(l[0]) && l[0] == s[|s| - |l|];
      var r := RStrip(l);
      assert r != [];
    }
  }

  lemma StrippedFixpoint(s: string)
    requires IsStripped(s)
    ensures Strip(s) == s
  {
  }

  // ---------------------------------------------------------------------------
  // str.split() on whitespace

  function TakeWord(s: string): (w: string)
    ensures |w| <= |s| && w == s[..|w|] && NoSpace(w)
    ensures |w| < |s| ==> IsSpace(s[|w|])
  {
    if s == [] || IsSpace(s[0]) then [] else [s[0]] + TakeWord(s[1..])
  }

  /** `s.split()`: the maximal runs of non-whitespace, in order. */
  function Words(s: string): (ws: seq<string>)
    ensures forall k :: 0 <= k < |ws| ==> ws[k] != [] && NoSpace(ws[k])
    decreases |s|
  {
    if s == [] then []
    else if IsSpace(s[0]) then Words(s[1..])
    else
      var w := TakeWord(s);
      [w] + Words(s[|w|..])
  }

  lemma {:induction false} WordsEmpty(s: string)
    ensures Words(s) == [] <==> IsBlank(s)
    decreases |s|
  {
    if s != [] && IsSpace(s[0]) {
      WordsEmpty(s[1..]);
      if IsBlank(s[1..]) {
        forall k | 0 <= k < |s| ensures IsSpace(s[k]) {
          if k > 0 { assert s[k] == s[1..][k - 1]; }
        }
      }
    }
  }

  /** A word never contains a space, so a table entry with a space in it is never a word. */
  lemma WordNeverSpaced(s: string, e: string, k: nat)
    requires k < |Words(s)|
    requires exists j :: 0 <= j < |e| && IsSpace(e[j])
    ensures Words(s)[k] != e
  {
  }

  // ---------------------------------------------------------------------------
  // str.split(sep) and sep.join(parts)

  /** `s.split(sep)` for a one-character separator: never empty, and no part holds `sep`. */
  function Split(s: string, sep: char): (parts: seq<string>)
    ensures |parts| >= 1
    ensures forall k :: 0 <= k < |parts| ==> sep !in parts[k]
  {
    if s == [] then [[]]
    else if s[0] == sep then [[]] + Split(s[1..], sep)
    else
      var rest := Split(s[1..], sep);
      [[s[0]] + rest[0]] + rest[1..]
  }

  /** `sep.join(parts)`. */
  function Join(parts: seq<string>, sep: string): string {
    if |parts| == 0 then []
    else if |parts| == 1 then parts[0]
    else parts[0] + sep + Join(parts[1..], sep)
  }

  /** A join of three or more parts opens with the first two, each followed by the
      separator. */
  lemma JoinHead(parts: seq<string>, sep: string)
    requires |parts| >= 3
    ensures StartsWith(Join(parts, sep), parts[0] + sep + parts[1] + sep)
  {
    var rest := Join(parts[2..], sep);
    assert Join(parts[1..], sep) == parts[1] + sep + rest;
    var head := parts[0] + sep + parts[1] + sep;
    assert Join(parts, sep) == head + rest;
    assert (head + rest)[..|head|] == head;
  }

  function Lines(s: string): seq<string> {
    Split(s, '\n')
  }

  function Unlines(parts: seq<string>): string {
    Join(parts, "\n")
  }

  /** Joining the parts of a split gives the text back. */
  lemma {:induction false} JoinSplit(s: string, sep: char)
    ensures Join(Split(s, sep), [sep]) == s
  {
    if s == [] {
    } else if s[0] == sep {
      JoinSplit(s[1..], sep);
      var rest := Split(s[1..], sep);
      assert Split(s, sep) == [[]] + rest;
      assert Join([[]] + rest, [sep]) == [] + [sep] + Join(rest, [sep]);
    } else {
      JoinSplit(s[1..], sep);
      var rest := Split(s[1..], sep);
      var parts := [[s[0]] + rest[0]] + rest[1..];
      assert Split(s, sep) == parts;
      if |rest| == 1 {
        assert Join(parts, [sep]) == [s[0]] + rest[0];
      } else {
        assert parts[1..] == rest[1..];
        assert Join(parts, [sep]) == [s[0]] + rest[0] + [sep] + Join(rest[1..], [sep]);
        assert Join(rest, [sep]) == rest[0] + [sep] + Join(rest[1..], [sep]);
      }
    }
  }

  /** Splitting a join of separator-free parts gives the parts back. */
  lemma {:induction false} SplitJoin(parts: seq<string>, sep: char)
    requires |parts| >= 1
    requires forall k :: 0 <= k < |parts| ==> sep !in parts[k]
    ensures Split(Join(parts, [sep]), sep) == parts
    decreases |parts|, |parts[0]|
  {
    var p := parts[0];
    if |parts| == 1 {
      SplitNoSep(p, sep);
    } else if p == [] {
      SplitJoin(parts[1..], sep);
      assert Join(parts, [sep]) == [sep] + Join(parts[1..], [sep]);
    } else {
      var parts' := [p[1..]] + parts[1..];
      assert p[0] != sep by { assert p[0] in parts[0]; }
      assert sep !in p[1..];
      SplitJoin(parts', sep);
      var j := Join(parts', [sep]);
      assert j == p[1..] + [sep] + Join(parts[1..], [sep]);
      assert Join(parts, [sep]) == [p[0]] + j;
      var whole := [p[0]] + j;
      assert whole[1..] == j;
      assert Split(whole, sep) == [[p[0]] + parts'[0]] + parts'[1..];
      assert [p[0]] + p[1..] == p;
      assert parts'[1..] == parts[1..];
    }
  }

  lemma {:induction false} SplitNoSep(s: string, sep: char)
    requires sep !in s
    ensures Split(s, sep) == [s]
  {
    if s != [] {
      assert s[0] != sep && sep !in s[1..];
      SplitNoSep(s[1..], sep);
      assert [s[0]] + s[1..] == s;
    }
  }

  /** The index of the first element that satisfies `p`. */
  function FirstWhere<T>(s: seq<T>, p: T -> bool): (r: Option<nat>)
    ensures r.Some? ==> r.value < |s| && p(s[r.value]) && forall j :: 0 <= j < r.value ==> !p(s[j])
    ensures r.None? ==> forall j :: 0 <= j < |s| ==> !p(s[j])
  {
    if s == [] then None
    else
      var r := FirstWhere(s[..|s| - 1], p);
      if r.Some? then r
      else if p(s[|s| - 1]) then Some(|s| - 1)
      else None
  }

  /** The prefix as long as the sequence is the sequence. */
  lemma TakeAll<T>(s: seq<T>, i: nat)
    requires i == |s|
    ensures s[..i] == s
  {
  }

  /** Cutting one more element's prefix back by one gives the shorter prefix. */
  lemma PrefixOfPrefix<T>(s: seq<T>, i: nat)
    requires i < |s|
    ensures s[..i + 1][..i] == s[..i]
  {
  }

  /** Appending one element and cutting it off again gives the sequence back. */
  lemma InitOfAppend<T>(s: seq<T>, x: T)
    ensures (s + [x])[..|s|] == s
  {
  }

  /** A non-empty sequence is its front followed by its last element. */
  lemma InitLast<T>(s: seq<T>)
    requires s != []
    ensures s[..|s| - 1] + [s[|s| - 1]] == s
  {
  }

  /** One more element that fails the test extends a failing prefix. */
  lemma NoneThrough<T>(s: seq<T>, p: T -> bool, i: nat)
    requires i < |s| && !p(s[i]) && forall j :: 0 <= j < i ==> !p(s[j])
    ensures forall j :: 0 <= j <= i ==> !p(s[j])
  {
  }

  lemma {:induction false} FirstWhereIs<T>(s: seq<T>, p: T -> bool, i: nat)
    requires i <= |s|
    requires forall j :: 0 <= j < i ==> !p(s[j])
    requires i < |s| ==> p(s[i])
    ensures FirstWhere(s, p) == if i < |s| then Some(i) else None
  {
    if s != [] {
      if i < |s| - 1 {
        FirstWhereIs(s[..|s| - 1], p, i);
      } else {
        FirstWhereIs(s[..|s| - 1], p, |s| - 1);
      }
    }
  }

  /** Python's `lst[-n:]` for n >= 0 (all of `lst` when it is shorter). */
  function LastN<T>(s: seq<T>, n: nat): (r: seq<T>)
    ensures |r| == if |s| < n then |s| else n
    ensures r == s[|s| - |r|..]
  {
    if |s| <= n then s else s[|s| - n..]
  }

  /** Python's `text[:n]` for n >= 0. */
  function Prefix(s: string, n: nat): string {
    if |s| <= n then s else s[..n]
  }

  // ---------------------------------------------------------------------------
  // Digits and decimal numbers

  predicate IsDigit(c: char) { '0' <= c <= '9' }

  /** Lower-case hexadecimal digit, the alphabet of `uuid4().hex`. */
  predicate IsHexDigit(c: char) { IsDigit(c) || 'a' <= c <= 'f' }

  /** `s.isdigit()` on ASCII digits: non-empty and all digits. */
  predicate IsDigits(s: string) {
    |s| > 0 && forall k :: 0 <= k < |s| ==> IsDigit(s[k])
  }

  function DigitValue(c: char): nat
    requires IsDigit(c)
  {
    c as int - '0' as int
  }

  /** `int(s)` for a string of ASCII digits. */
  function ParseDigits(s: string): nat
    requires forall k :: 0 <= k < |s| ==> IsDigit(s[k])
  {
    if s == [] then 0 else ParseDigits(s[..|s| - 1]) * 10 + DigitValue(s[|s| - 1])
  }

  function DigitChar(d: nat): (c: char)
    requires d < 10
    ensures IsDigit(c) && DigitValue(c) == d
  {
    ('0' as int + d) as char
  }

  /** `str(n)` for a natural number: decimal digits without leading zeros. */
  function NatToString(n: nat): (s: string)
    ensures IsDigits(s)
    ensures |s| > 1 ==> s[0] != '0'
  {
    if n < 10 then [DigitChar(n)] else NatToString(n / 10) + [DigitChar(n % 10)]
  }

  /** `str(i)` for any integer. */
  function IntToString(i: int): string {
    if i < 0 then "-" + NatToString(-i) else NatToString(i)
  }

  /** `f"{ms / 1000:.1f}"`: seconds with one decimal, halves rounded up. */
  function Seconds1(ms: int): string {
    if ms < 0 then "-" + Seconds1Nat(-ms) else Seconds1Nat(ms)
  }

  function Seconds1Nat(ms: nat): string {
    var tenths := (ms + 50) / 100;
    NatToString(tenths / 10) + "." + [DigitChar(tenths % 10)]
  }

  /** Rendering a number and parsing it back is the identity. */
  lemma {:induction false} ParseNatToString(n: nat)
    ensures ParseDigits(NatToString(n)) == n
  {
    if n >= 10 {
      ParseNatToString(n / 10);
      var s := NatToString(n);
      assert s[..|s| - 1] == NatToString(n / 10);
    }
  }

  // ---------------------------------------------------------------------------
  // UTF-8

  function Utf8Width(c: char): nat {
    if c as int < 0x80 then 1 else if c as int < 0x800 then 2 else if c as int < 0x10000 then 3 else 4
  }

  /** `len(s.encode('utf-8'))`. */
  function Utf8Length(s: string): (n: nat)
    ensures |s| <= n <= 4 * |s|
  {
    if s == [] then 0 else Utf8Width(s[0]) + Utf8Length(s[1..])
  }
}
