/**
 * The argument and action checks of the tool wrappers (tools/handlers.py): which
 * manager operation a tool call is handed to, or the STATUS: ERROR text it is refused
 * with before anything reaches a device.
 *
 * Optional tool arguments are `Option<string>`. Python's truthiness test `not x` is
 * `!Given(x)` (absent or empty), and its `x is None` test is `x.None?`.
 */
module Routing {
  import opened Wrappers
  import opened Text

  /** The manager operation a tool call is handed to. */
  datatype Call =
    | StopAll
    | StopShell(shellId: string)
    | ListShells
    | ShellStatus(shellId: string)
    | RunBackground(shellId: string, command: string)
    | CheckJob(jobId: string)
    | ListJobs
    | PullFile(serial: string, remotePath: string, maxSizeKb: int)
    | PushFile(serial: string, remotePath: string, content: string)
    | Peek(shellId: string)
    | SendInput(shellId: string, text: string)
    | SendControl(shellId: string, ch: string)
    | Diagnose(shellId: string)

  /** A routed call, or the error text returned in its place. */
  datatype Routed = Dispatch(call: Call) | Refuse(text: string)

  /** An optional argument that is present and not empty (Python truthiness). */
  predicate Given(x: Option<string>) {
    x.Some? && x.value != []
  }

  const ErrorHead := "STATUS: ERROR\nReason: "

  /** An error reply: the status line, then the reason. */
  function Refusal(reason: string): (r: string)
    ensures StartsWith(r, ErrorHead) && r[|ErrorHead|..] == reason
  {
    ErrorHead + reason
  }

  /** The largest push, in bytes of UTF-8, that is handed to the device (1024 KB). */
  const MaxPushBytes := 1048576

  // ---------------------------------------------------------------------------
  // stop_shell and shell_status

  /** The word "all" in any letter case. */
  predicate IsAllWord(s: string) {
    |s| == 3 && s[0] in "aA" && s[1] in "lL" && s[2] in "lL"
  }

  /** Lower-casing gives "all" exactly for the three-letter word "all" in any case. */
  lemma LowerIsAll(s: string)
    ensures Lower(s) == "all" <==> IsAllWord(s)
  {
    if Lower(s) == "all" {
      assert LowerChar(s[0]) == 'a' && LowerChar(s[1]) == 'l' && LowerChar(s[2]) == 'l';
    }
    if IsAllWord(s) {
      assert Lower(s) == [LowerChar(s[0]), LowerChar(s[1]), LowerChar(s[2])];
    }
  }

  /** `stop_shell`: with no id, an empty id, or "all" in any case, every shell is
      stopped; otherwise the named one. */
  function StopShellRoute(shellId: Option<string>): (r: Call)
    ensures r.StopAll? || r.StopShell?
    ensures r.StopShell? ==> shellId == Some(r.shellId)
  {
    if !Given(shellId) || Lower(shellId.value) == "all" then StopAll
    else StopShell(shellId.value)
  }

  /** Both directions of the routing rule of `stop_shell`, with "all" in any case. */
  lemma StopShellRouteSpec(shellId: Option<string>)
    ensures StopShellRoute(shellId) == StopAll
      <==> shellId.None? || shellId.value == [] || IsAllWord(shellId.value)
  {
    if shellId.Some? {
      LowerIsAll(shellId.value);
    }
  }

  /** `shell_status`: with no id or an empty id, every shell is listed. */
  function ShellStatusRoute(shellId: Option<string>): (r: Call)
    ensures r == ListShells <==> !Given(shellId)
    ensures r != ListShells ==> r == ShellStatus(shellId.value)
  {
    if !Given(shellId) then ListShells else ShellStatus(shellId.value)
  }

  // ---------------------------------------------------------------------------
  // background_job

  const StartNeedsArgs := Refusal("'start' requires shell_id and command")
  const CheckNeedsJob := Refusal("'check' requires job_id")

  function UnknownJobAction(action: string): string {
    Refusal("Unknown action '" + action + "'. Use: start, check, list")
  }

  /** `background_job`: the action is matched case-insensitively; "start" needs a
      shell id and a command, "check" a job id. */
  function BackgroundJobRoute(action: string, shellId: Option<string>, command: Option<string>,
                              jobId: Option<string>): (r: Routed)
    ensures r.Refuse? ==> StartsWith(r.text, ErrorHead)
    ensures r.Dispatch? ==> match r.call
      case RunBackground(s, c) => Lower(action) == "start" && shellId == Some(s) && s != []
                                  && command == Some(c) && c != []
      case CheckJob(j) => Lower(action) == "check" && jobId == Some(j) && j != []
      case ListJobs => Lower(action) == "list"
      case _ => false
  {
    var a := Lower(action);
    if a == "start" then
      if !Given(shellId) || !Given(command) then Refuse(StartNeedsArgs)
      else Dispatch(RunBackground(shellId.value, command.value))
    else if a == "check" then
      if !Given(jobId) then Refuse(CheckNeedsJob) else Dispatch(CheckJob(jobId.value))
    else if a == "list" then Dispatch(ListJobs)
    else Refuse(UnknownJobAction(a))
  }

  /** A background-job call is refused exactly when its action is unknown or an
      argument that action needs is missing, and an unknown action is named back. */
  lemma BackgroundJobRefusals(action: string, shellId: Option<string>, command: Option<string>,
                              jobId: Option<string>)
    ensures var r := BackgroundJobRoute(action, shellId, command, jobId);
      var a := Lower(action);
      && (r.Refuse? <==> (a !in ["start", "check", "list"]
                          || (a == "start" && (!Given(shellId) || !Given(command)))
                          || (a == "check" && !Given(jobId))))
      && (a !in ["start", "check", "list"] ==> r == Refuse(UnknownJobAction(a)))
  {
  }

  // ---------------------------------------------------------------------------
  // file_transfer

  const PushNeedsContent := Refusal("'push' requires content")

  /** `len(content.encode('utf-8')) / 1024` formatted with `:.1f`, in tenths of a KB.
      The quotient is exact in floating point, so the rounding is to the nearest tenth
      with ties to even. */
  function KbTenths(bytes: nat): nat {
    var q := bytes * 5 / 512;
    var rem := bytes * 5 % 512;
    if rem > 256 || (rem == 256 && q % 2 == 1) then q + 1 else q
  }

  /** The tenths shown are the nearest to `bytes / 1024`, with ties going to even. */
  lemma KbTenthsNearest(bytes: nat)
    ensures var t := KbTenths(bytes);
      && -256 <= t * 512 - bytes * 5 <= 256
      && (t * 512 - bytes * 5 == 256 || t * 512 - bytes * 5 == -256 ==> t % 2 == 0)
  {
    var q := bytes * 5 / 512;
    assert bytes * 5 == q * 512 + bytes * 5 % 512;
  }

  function KbText(bytes: nat): string {
    var t := KbTenths(bytes);
    NatToString(t / 10) + "." + [DigitChar(t % 10)]
  }

  const LargeFileAdvice := "KB > 1MB limit)\n\nFor large files, use:\n"
    + "  - Project CLI: sovereign deploy (if available)\n"
    + "  - Direct ADB: adb push <local_file> "

  function TooLarge(bytes: nat, remotePath: string): string {
    Refusal("Content too large (" + KbText(bytes) + LargeFileAdvice + remotePath + "\n")
  }

  function UnknownTransferAction(action: string): string {
    Refusal("Unknown action '" + action + "'. Use: pull, push")
  }

  /** `file_transfer`: a pull goes straight to the device; a push needs content (an
      empty one is allowed) of at most 1024 KB of UTF-8. */
  function FileTransferRoute(action: string, serial: string, remotePath: string,
                             content: Option<string>, maxSizeKb: int): (r: Routed)
    ensures r.Refuse? ==> StartsWith(r.text, ErrorHead)
    ensures r.Dispatch? ==> r.call.PullFile? || r.call.PushFile?
    ensures r == Dispatch(PullFile(serial, remotePath, maxSizeKb)) <==> Lower(action) == "pull"
    ensures r.Dispatch? && r.call.PushFile? ==>
      && Lower(action) == "push" && r.call.serial == serial && r.call.remotePath == remotePath
      && content == Some(r.call.content) && Utf8Length(r.call.content) <= MaxPushBytes
  {
    var a := Lower(action);
    if a == "pull" then Dispatch(PullFile(serial, remotePath, maxSizeKb))
    else if a == "push" then
      if content.None? then Refuse(PushNeedsContent)
      else if Utf8Length(content.value) > MaxPushBytes then
        Refuse(TooLarge(Utf8Length(content.value), remotePath))
      else Dispatch(PushFile(serial, remotePath, content.value))
    else Refuse(UnknownTransferAction(a))
  }

  /** A push over the limit never reaches the device, and its refusal shows a size of
      at least 1024.0 KB. */
  lemma {:induction false} OversizedPush(serial: string, remotePath: string, content: string, maxSizeKb: int)
    requires Utf8Length(content) > MaxPushBytes
    ensures forall action :: Lower(action) == "push" ==>
      FileTransferRoute(action, serial, remotePath, Some(content), maxSizeKb)
        == Refuse(TooLarge(Utf8Length(content), remotePath))
    ensures KbTenths(Utf8Length(content)) >= 10240
  {
    var b := Utf8Length(content);
    var q := b * 5 / 512;
    assert b * 5 == q * 512 + b * 5 % 512;
  }

  /** A transfer is refused exactly when its action is unknown, a push has no
      content, or the content is over the limit. */
  lemma FileTransferRefusals(action: string, serial: string, remotePath: string,
                             content: Option<string>, maxSizeKb: int)
    ensures var r := FileTransferRoute(action, serial, remotePath, content, maxSizeKb);
      var a := Lower(action);
      r.Refuse? <==> (a != "pull" && a != "push")
                     || (a == "push" && (content.None? || Utf8Length(content.value) > MaxPushBytes))
  {
  }

  // ---------------------------------------------------------------------------
  // shell_interact

  const InputNeedsText := Refusal("'input' requires text")
  const ControlNeedsChar := Refusal("'control' requires char ('c', 'd', or 'z')")

  function UnknownInteractAction(action: string): string {
    Refusal("Unknown action '" + action + "'. Use: peek, input, control, diagnose")
  }

  /** `shell_interact`: "input" needs a text (an empty one is allowed) and "control"
      a non-empty character argument. */
  function ShellInteractRoute(action: string, shellId: string, text: Option<string>,
                              ch: Option<string>): (r: Routed)
    ensures r.Refuse? ==> StartsWith(r.text, ErrorHead)
    ensures r.Dispatch? ==> match r.call
      case Peek(s) => Lower(action) == "peek" && s == shellId
      case SendInput(s, t) => Lower(action) == "input" && s == shellId && text == Some(t)
      case SendControl(s, c) => Lower(action) == "control" && s == shellId && ch == Some(c) && c != []
      case Diagnose(s) => Lower(action) == "diagnose" && s == shellId
      case _ => false
  {
    var a := Lower(action);
    if a == "peek" then Dispatch(Peek(shellId))
    else if a == "input" then
      if text.None? then Refuse(InputNeedsText) else Dispatch(SendInput(shellId, text.value))
    else if a == "control" then
      if !Given(ch) then Refuse(ControlNeedsChar) else Dispatch(SendControl(shellId, ch.value))
    else if a == "diagnose" then Dispatch(Diagnose(shellId))
    else Refuse(UnknownInteractAction(a))
  }

  /** An interaction is refused exactly when its action is unknown or the argument
      it needs is missing. */
  lemma ShellInteractRefusals(action: string, shellId: string, text: Option<string>, ch: Option<string>)
    ensures var r := ShellInteractRoute(action, shellId, text, ch);
      var a := Lower(action);
      r.Refuse? <==> (a !in ["peek", "input", "control", "diagnose"]
                      || (a == "input" && text.None?)
                      || (a == "control" && !Given(ch)))
  {
  }

  // ---------------------------------------------------------------------------
  // The "diagnose" report

  const NotResponsiveHint := "• Shell not responsive. Try: shell_interact('control', shell_id, char='c')"
  const IdleHint := "• No pending output. Shell may be idle or waiting."
  const PromptHint := "• PROMPT DETECTED! Use: shell_interact('input', shell_id, text='your_answer')"

  /** The peeked output, lower-cased, shows a question waiting for an answer. */
  predicate LooksLikePrompt(peek: string) {
    var p := Lower(peek);
    Contains(p, "[y/n]") || Contains(p, "password") || Contains(p, "continue?")
  }

  /** The suggestion, if any: an unresponsive shell first, then an idle one, then a
      pending prompt. */
  function Suggestion(status: string, peek: string): seq<string> {
    if Contains(status, "Responsive: False") then [NotResponsiveHint]
    else if Contains(peek, "(no new output") then [IdleHint]
    else if LooksLikePrompt(peek) then [PromptHint]
    else []
  }

  /** The report's blocks, each joined to the next by a newline. */
  function DiagnosisBlocks(status: string, peek: string): (r: seq<string>)
    ensures 8 <= |r| <= 9
    ensures r[0] == "=== SHELL DIAGNOSIS ===" && r[2] == status && r[5] == peek
    ensures r[7] == "SUGGESTED ACTIONS:"
    ensures |r| == 9 <==> Contains(status, "Responsive: False") || Contains(peek, "(no new output")
                          || LooksLikePrompt(peek)
  {
    ["=== SHELL DIAGNOSIS ===", "", status, "", "CURRENT OUTPUT:", peek, "", "SUGGESTED ACTIONS:"]
    + Suggestion(status, peek)
  }

  /** What "diagnose" returns, given the shell's status text and its peeked output:
      an error status is passed on as it is. */
  function Diagnosis(status: string, peek: string): (r: string)
    ensures Contains(status, "STATUS: ERROR") ==> r == status
    ensures !Contains(status, "STATUS: ERROR") ==>
      StartsWith(r, "=== SHELL DIAGNOSIS ===\n\n")
  {
    if Contains(status, "STATUS: ERROR") then status
    else
      JoinHead(DiagnosisBlocks(status, peek), "\n");
      Unlines(DiagnosisBlocks(status, peek))
  }

  /** The report carries at most one suggestion, chosen by priority. */
  lemma SuggestionPriority(status: string, peek: string)
    ensures var b := DiagnosisBlocks(status, peek);
      && (Contains(status, "Responsive: False") ==> b[8] == NotResponsiveHint)
      && (!Contains(status, "Responsive: False") && Contains(peek, "(no new output") ==> b[8] == IdleHint)
      && ((!Contains(status, "Responsive: False") && !Contains(peek, "(no new output")
           && LooksLikePrompt(peek)) ==> b[8] == PromptHint)
  {
  }
}
