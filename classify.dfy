/**
 * The three text classifiers of the session engine (core/shell.py): the advisory
 * for interactive programs, the slow/silent classification, and the detection of
 * an interactive prompt at the end of the output.
 */
module Classify {
  import opened Wrappers
  import opened Text
  import opened Patterns
  import opened Config

  // ---------------------------------------------------------------------------
  // Dangerous-command advisory

  function DangerWarning(base: string): string {
    "WARNING: '" + base + "' is an interactive command that may hang. "
    + "Consider using alternatives or adding appropriate flags."
  }

  /** The documented exceptions: an argument for cat/python/python3/node, a `-c` token
      for sh/bash/zsh and for su. */
  predicate Exempt(words: seq<string>)
    requires |words| > 0
  {
    (words[0] in ArgumentTakers && |words| > 1)
    || (words[0] in DashCShells && "-c" in words)
    || (words[0] == "su" && "-c" in words)
  }

  /** The scan over the table: the first entry equal to the first word and not exempt. */
  function ScanDangerous(table: seq<string>, words: seq<string>): Option<string>
    requires |words| > 0
  {
    if table == [] then None
    else if words[0] == table[0] && !Exempt(words) then Some(DangerWarning(words[0]))
    else ScanDangerous(table[1..], words)
  }

  /** `_check_dangerous_command`. The source strips before splitting; `Words` already
      ignores surrounding whitespace. */
  function CheckDangerousCommand(command: string): Option<string> {
    var parts := Words(command);
    if parts == [] then None else ScanDangerous(DangerousCommands, parts)
  }

  lemma {:induction false} ScanDangerousSpec(table: seq<string>, words: seq<string>)
    requires |words| > 0
    ensures ScanDangerous(table, words).Some? <==> words[0] in table && !Exempt(words)
    ensures ScanDangerous(table, words).Some? ==> ScanDangerous(table, words).value == DangerWarning(words[0])
  {
    if table != [] {
      ScanDangerousSpec(table[1..], words);
      assert table == [table[0]] + table[1..];
    }
  }

  /** The advisory is given exactly when the first word is a listed program and no
      exception applies; a blank command never gets one. */
  lemma DangerousSpec(command: string)
    ensures CheckDangerousCommand(command).Some? <==>
      (var w := Words(command); |w| > 0 && w[0] in DangerousCommands && !Exempt(w))
    ensures CheckDangerousCommand(command).Some? ==>
      CheckDangerousCommand(command).value == DangerWarning(Words(command)[0])
    ensures IsBlank(command) ==> CheckDangerousCommand(command).None?
  {
    WordsEmpty(command);
    if Words(command) != [] {
      ScanDangerousSpec(DangerousCommands, Words(command));
    }
  }

  /** The table entry "adb shell" holds a space, a word never does: it cannot fire. */
  lemma AdbShellNeverMatches(command: string)
    requires CheckDangerousCommand(command).Some?
    ensures Words(command)[0] != "adb shell"
  {
    DangerousSpec(command);
    assert IsSpace("adb shell"[3]);
  }

  // ---------------------------------------------------------------------------
  // Slow/silent classification

  /** First table entry that occurs in `s`, in table order. */
  function FirstContained(table: seq<string>, s: string): (r: Option<string>)
    ensures r.Some? ==> r.value in table && Contains(s, r.value)
    ensures r.None? ==> forall k :: 0 <= k < |table| ==> !Contains(s, table[k])
  {
    if table == [] then None
    else if Contains(s, table[0]) then Some(table[0])
    else FirstContained(table[1..], s)
  }

  predicate HasRecursiveFlag(words: seq<string>) {
    exists k :: 0 <= k < |RecursiveFlags| && RecursiveFlags[k] in words
  }

  function FirstWord(command: string): string {
    var parts := Words(command);
    if parts == [] then "" else parts[0]
  }

  /** `_is_slow_silent_command`: the slow-program list, then the slow patterns
      (case-insensitive), then the recursive flags, then the large paths. */
  function IsSlowSilentCommand(command: string): (r: (bool, string))
    ensures r.0 ==> r.1 != []
    ensures !r.0 ==> r.1 == []
  {
    var base := FirstWord(command);
    if base in SlowSilentCommands then
      (true, "'" + base + "' is a known slow/silent command")
    else match FirstMatch(SlowCommandPatterns, Lower(command))
      case Some(k) => (true, "Command matches slow pattern: " + SlowCommandPatterns[k].regex)
      case None =>
        if HasRecursiveFlag(Words(command)) then (true, "Recursive operation detected")
        else match FirstContained(LargePaths, command)
          case Some(path) => (true, "Operation on potentially large path: " + path)
          case None => (false, "")
  }

  /** A command is slow exactly when one of the four tests fires. */
  lemma SlowSpec(command: string)
    ensures IsSlowSilentCommand(command).0 <==>
      FirstWord(command) in SlowSilentCommands
      || (exists k :: 0 <= k < |SlowCommandPatterns| && Matches(SlowCommandPatterns[k].matcher, Lower(command)))
      || HasRecursiveFlag(Words(command))
      || (exists k :: 0 <= k < |LargePaths| && Contains(command, LargePaths[k]))
  {
    if FirstContained(LargePaths, command).Some? {
      var p := FirstContained(LargePaths, command).value;
      var k :| 0 <= k < |LargePaths| && LargePaths[k] == p;
    }
  }

  /** Precedence: the program list decides first, then the first matching pattern. */
  lemma SlowPrecedence(command: string)
    ensures FirstWord(command) in SlowSilentCommands ==>
      IsSlowSilentCommand(command) == (true, "'" + FirstWord(command) + "' is a known slow/silent command")
    ensures FirstWord(command) !in SlowSilentCommands && FirstMatch(SlowCommandPatterns, Lower(command)).Some? ==>
      IsSlowSilentCommand(command).1 ==
        "Command matches slow pattern: " + SlowCommandPatterns[FirstMatch(SlowCommandPatterns, Lower(command)).value].regex
  {
  }

  /** Every command that mentions one of the large paths is classified slow. */
  lemma LargePathIsSlow(command: string, path: string)
    requires path in LargePaths && Contains(command, path)
    ensures IsSlowSilentCommand(command).0
  {
    var k :| 0 <= k < |LargePaths| && LargePaths[k] == path;
    SlowSpec(command);
  }

  // ---------------------------------------------------------------------------
  // Interactive prompts

  /** The text prompts are searched in: the last three lines of the stripped output. */
  function PromptWindow(output: string): string {
    Unlines(LastN(Lines(Strip(output)), 3))
  }

  /** The window holds at most three lines, and they are the last lines of the output. */
  lemma PromptWindowLines(output: string)
    ensures Lines(PromptWindow(output)) == LastN(Lines(Strip(output)), 3)
    ensures |Lines(PromptWindow(output))| <= 3
  {
    var last := LastN(Lines(Strip(output)), 3);
    LastLinesHaveNoBreak(Lines(Strip(output)), 3);
    SplitJoin(last, '\n');
  }

  /** The last `n` lines of a split, taken as a whole, still hold no line break. */
  lemma LastLinesHaveNoBreak(all: seq<string>, n: nat)
    requires forall k :: 0 <= k < |all| ==> '\n' !in all[k]
    ensures forall k :: 0 <= k < |LastN(all, n)| ==> '\n' !in LastN(all, n)[k]
  {
    var last := LastN(all, n);
    forall k | 0 <= k < |last| ensures '\n' !in last[k] {
      assert last[k] == all[|all| - |last| + k];
    }
  }

  /** The lower-cased window the prompt tables are searched in. */
  function SearchWindow(output: string): string {
    Lower(PromptWindow(output))
  }

  /** Row `k` of `table` occurs in `s`. */
  predicate RowMatches(table: seq<Pattern>, k: int, s: string) {
    0 <= k < |table| && Matches(table[k].matcher, s)
  }

  /** `_detect_interactive_prompt`: the first prompt pattern, in table order, that occurs in
      the window; the answer is that pattern's regular expression. */
  function DetectInteractivePrompt(output: string): (r: Option<string>)
    ensures r.Some? <==> exists k :: RowMatches(InteractivePromptPatterns, k, SearchWindow(output))
    ensures r.Some? ==> exists k :: RowMatches(InteractivePromptPatterns, k, SearchWindow(output))
                                    && InteractivePromptPatterns[k].regex == r.value
                                    && forall j :: 0 <= j < k ==> !RowMatches(InteractivePromptPatterns, j, SearchWindow(output))
  {
    match FirstMatch(InteractivePromptPatterns, SearchWindow(output))
    case None => None
    case Some(k) =>
      assert RowMatches(InteractivePromptPatterns, k, SearchWindow(output));
      Some(InteractivePromptPatterns[k].regex)
  }

  /** The narrow check used for slow/silent commands, over the same window: the first
      specific prompt pattern, in list order, that occurs in it. */
  function DetectSpecificPrompt(output: string): (r: Option<string>)
    ensures r.Some? <==> exists k :: RowMatches(SpecificPromptPatterns, k, SearchWindow(output))
    ensures r.Some? ==> exists k :: RowMatches(SpecificPromptPatterns, k, SearchWindow(output))
                                    && SpecificPromptPatterns[k].regex == r.value
                                    && forall j :: 0 <= j < k ==> !RowMatches(SpecificPromptPatterns, j, SearchWindow(output))
  {
    match FirstMatch(SpecificPromptPatterns, SearchWindow(output))
    case None => None
    case Some(k) =>
      assert RowMatches(SpecificPromptPatterns, k, SearchWindow(output));
      Some(SpecificPromptPatterns[k].regex)
  }
}
