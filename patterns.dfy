/**
 * The regular expressions of the heuristic tables, each replaced by a hand-written
 * matcher over text that has already been lower-cased (every table is searched with
 * `re.IGNORECASE`, and every literal below is written in lower case).
 *
 * `\s` is `Text.IsSpace`; `.` is any character but a newline; `$` is read in
 * `re.MULTILINE` mode (end of the text or just before a newline). A matcher is a
 * `re.search`: it holds when the pattern matches at SOME position.
 */
module Patterns {
  import opened Wrappers
  import opened Text

  datatype Matcher =
    | Literal(text: string)                   // the literal anywhere
    | Spaced(parts: seq<string>)              // parts[0] \s* parts[1] \s* ... (parts non-empty)
    | AtLineEnd(text: string, optColon: bool) // text \s*$   or   text \s*:?\s*$
    | YesNoAtLineEnd                          // y/n\)?\s*:?\s*$
    | EnterColon                              // enter\s+.*:\s*$
    | PressToContinue                         // press\s+.*to\s+continue
    | OneOf(left: Matcher, right: Matcher)    // left | right

  /** A table row: the regular expression as the source writes it, and its matcher. */
  datatype Pattern = Pattern(regex: string, matcher: Matcher)

  /** `\s*$` from position `j`: only whitespace up to the end of that line. */
  predicate BlankToLineEnd(s: string, j: nat)
    decreases |s| - j
  {
    j >= |s| || s[j] == '\n' || (IsSpace(s[j]) && BlankToLineEnd(s, j + 1))
  }

  /** `\s*:?\s*$` from position `j`. */
  predicate OptColonToLineEnd(s: string, j: nat)
    decreases |s| - j
  {
    BlankToLineEnd(s, j)
    || (j < |s| && s[j] == ':' && BlankToLineEnd(s, j + 1))
    || (j < |s| && IsSpace(s[j]) && OptColonToLineEnd(s, j + 1))
  }

  /** `\s* parts[0] \s* parts[1] ...` from position `j`. */
  predicate SpacedFrom(s: string, j: nat, parts: seq<string>)
    decreases |parts|, |s| - j
  {
    parts == []
    || (StartsAt(s, j, parts[0]) && SpacedFrom(s, j + |parts[0]|, parts[1..]))
    || (j < |s| && IsSpace(s[j]) && SpacedFrom(s, j + 1, parts))
  }

  /** `.*:\s*$` from position `j` (the `.*` stays on one line). */
  predicate ColonEndsLine(s: string, j: nat)
    decreases |s| - j
  {
    j < |s| &&
    ((s[j] == ':' && BlankToLineEnd(s, j + 1)) || (s[j] != '\n' && ColonEndsLine(s, j + 1)))
  }

  /** `\s*.*:\s*$` from position `j`. */
  predicate SpaceThenColonEndsLine(s: string, j: nat)
    decreases |s| - j
  {
    ColonEndsLine(s, j) || (j < |s| && IsSpace(s[j]) && SpaceThenColonEndsLine(s, j + 1))
  }

  /** `to\s+continue` at position `j`. */
  predicate ToContinueAt(s: string, j: nat) {
    StartsAt(s, j, "to") && j + 2 < |s| && IsSpace(s[j + 2]) && SpacedFrom(s, j + 3, ["continue"])
  }

  /** `.*to\s+continue` from position `j`. */
  predicate ToContinueOnLine(s: string, j: nat)
    decreases |s| - j
  {
    ToContinueAt(s, j) || (j < |s| && s[j] != '\n' && ToContinueOnLine(s, j + 1))
  }

  /** `\s*.*to\s+continue` from position `j`. */
  predicate SpaceThenToContinue(s: string, j: nat)
    decreases |s| - j
  {
    ToContinueOnLine(s, j) || (j < |s| && IsSpace(s[j]) && SpaceThenToContinue(s, j + 1))
  }

  /** The matcher matches with its first character at position `i`. */
  predicate MatchesAt(m: Matcher, s: string, i: nat) {
    match m
    case Literal(t) => StartsAt(s, i, t)
    case Spaced(parts) => |parts| > 0 && StartsAt(s, i, parts[0]) && SpacedFrom(s, i + |parts[0]|, parts[1..])
    case AtLineEnd(t, optColon) =>
      StartsAt(s, i, t) && (if optColon then OptColonToLineEnd(s, i + |t|) else BlankToLineEnd(s, i + |t|))
    case YesNoAtLineEnd =>
      StartsAt(s, i, "y/n") &&
      (OptColonToLineEnd(s, i + 3) || (i + 3 < |s| && s[i + 3] == ')' && OptColonToLineEnd(s, i + 4)))
    case EnterColon =>
      StartsAt(s, i, "enter") && i + 5 < |s| && IsSpace(s[i + 5]) && SpaceThenColonEndsLine(s, i + 6)
    case PressToContinue =>
      StartsAt(s, i, "press") && i + 5 < |s| && IsSpace(s[i + 5]) && SpaceThenToContinue(s, i + 6)
    case OneOf(a, b) => MatchesAt(a, s, i) || MatchesAt(b, s, i)
  }

  /** `re.search`: a match starts somewhere in `s`. */
  predicate Matches(m: Matcher, s: string) {
    exists i :: 0 <= i <= |s| && MatchesAt(m, s, i)
  }

  /** The first row of `table`, in table order, whose pattern occurs in `s`. */
  function FirstMatch(table: seq<Pattern>, s: string): (r: Option<nat>)
    ensures r.Some? ==> r.value < |table| && Matches(table[r.value].matcher, s)
    ensures r.Some? ==> forall k :: 0 <= k < r.value ==> !Matches(table[k].matcher, s)
    ensures r.None? ==> forall k :: 0 <= k < |table| ==> !Matches(table[k].matcher, s)
  {
    if table == [] then None
    else if Matches(table[0].matcher, s) then Some(0)
    else match FirstMatch(table[1..], s)
      case None => None
      case Some(k) => Some(k + 1)
  }

}
