/**
 * One interactive shell session (`Shell` in core/shell.py). The pexpect channel is
 * replaced by inputs: whether the process is alive, how the prompt and `su`
 * exchanges went, whether a ping was answered, and the poll trace of a command.
 * The session's own fields are kept: whether a process is open, the connected flag
 * and the time of the last activity. Two ghost fields record what the environment
 * saw: the number of processes spawned and the wrapped commands sent by
 * `run_command` (the `exit` lines of `disconnect`, the `su`/`id` exchange of
 * `connect`, the ping and the recovery keys are not recorded).
 */
module Sessions {
  import opened Wrappers
  import opened Text
  import opened Config
  import opened Models
  import opened Classify
  import opened Polling
  import opened Cleanup
  import opened Recovery

  /** How waiting for the first shell prompt went. */
  datatype PromptWait =
    | PromptAtOnce      // a prompt within the first wait
    | PromptAfterNudge  // the first wait timed out; a bare newline brought a prompt
    | NoPrompt          // still no prompt after the newline (or that wait raised)
    | EofBeforePrompt   // the channel closed during the first wait

  /** What `su` answered, in the order of the expect list; for a '#' prompt, whether
      `id` then showed uid=0 followed by a prompt. */
  datatype SuReply = SuRootPrompt(uidZero: bool) | SuDenied | SuNotFound | SuAwaitingGrant | SuTimeout | SuEof

  /** How a connection attempt goes: the spawn raises, or it spawns and then the
      prompt and (for a root shell) `su` exchanges go as given. */
  datatype ConnectScript = SpawnRaised(reason: string) | Spawned(prompt: PromptWait, su: SuReply)

  /** A connection attempt of a session of type `t` succeeds when a prompt appears and,
      for a root shell, `su` gives a '#' prompt and `id` shows uid=0. */
  predicate Connects(t: ShellType, script: ConnectScript) {
    script.Spawned? && (script.prompt == PromptAtOnce || script.prompt == PromptAfterNudge)
    && (t == NonRoot || script.su == SuRootPrompt(true))
  }

  /** What sending the wrapped command does: it goes through, raises EOF, or raises
      another exception, whose text is given. */
  datatype SendResult = SendOk | SendEof | SendRaised(message: string)

  /** The environment of one `run_command` call: whether the process is alive and
      answers the ping, the two uuid suffixes, what sending does, the clock at the
      start of the loop, the poll trace, the recovery probes and the clock after
      cleanup. */
  datatype RunEnv = RunEnv(
    alive: bool,
    answered: bool,
    markerId: string,
    exitId: string,
    send: SendResult,
    start: int,
    trace: seq<Poll>,
    recovery: seq<StageOutcome>,
    finished: int)

  /** `get_status()` as a record; idle time in milliseconds. */
  datatype ShellStatus = ShellStatus(
    shellId: string,
    device: string,
    shellType: string,
    connected: bool,
    responsive: bool,
    idleMs: Option<int>)

  function EndMarkerOf(markerId: string): string {
    MarkerPrefix + markerId
  }

  /** The line actually sent: the command, then echoes of its exit status framed by
      the exit marker and of the END marker. */
  function WrappedCommand(command: string, marker: string, em: string): string {
    command + "; echo \"" + em + "$?" + em + "\"; echo \"" + marker + "\""
  }

  function RunConfig(command: string, timeoutSeconds: int, env: RunEnv): PollConfig {
    PollConfig(IsSlowSilentCommand(command).0, timeoutSeconds, EndMarkerOf(env.markerId), env.start)
  }

  /** The trace reaches the deadline and there is a probe outcome for each recovery
      stage: the loop of the source always ends, by the deadline at the latest. */
  predicate Complete(env: RunEnv, timeoutSeconds: int) {
    |env.recovery| == StageCount && env.trace != []
    && env.trace[|env.trace| - 1].clock - env.start >= timeoutSeconds * 1000
  }

  function WarningSuffix(warning: Option<string>): string {
    match warning
    case Some(w) => "\n" + w
    case None => ""
  }

  function OrNone(s: string): string {
    if s == "" then "(none)" else s
  }

  /** A reply: its status line, then the body. */
  function Reply(head: string, body: string): (r: string)
    ensures StartsWith(r, head)
  {
    assert (head + body)[..|head|] == head;
    head + body
  }

  /** What an ERROR reply about one named thing (a shell, a job, a device) says
      before its reason: the status line and a line naming what `subject` is and
      which one. */
  function ErrorHead(subject: string, name: string): string {
    "STATUS: ERROR\n" + subject + ": " + name + "\nReason: "
  }

  /** The ERROR reply about one named thing, ending with the reason. */
  function ErrorReply(subject: string, name: string, reason: string): (r: string)
    ensures StartsWith(r, ErrorHead(subject, name))
    ensures StartsWith(r, "STATUS: ERROR\n")
  {
    var head := ErrorHead(subject, name);
    assert head[..14] == "STATUS: ERROR\n";
    Reply(head, reason)
  }

  const NotConnected := "Shell not connected.\nAction: Use start_shell to connect first."
  const NotResponding := "Shell not responding.\nAction: Use stop_shell then start_shell to reconnect."
  const ConnectionLost := "Shell connection lost.\nAction: Use start_shell to reconnect."

  /** How a `run_command` call ended, before its reply is worded. */
  datatype Outcome =
    | Refused(reason: string)                                          // an ERROR reply
    | Finished(cleaned: Cleaned)                                       // END marker seen
    | Stuck(elapsedMs: int, quietMs: int, out: string)                 // no progress
    | TimedOut(out: string, recovery: string)                          // hard timeout
    | Prompted(pattern: string, out: string, recovery: string)         // interactive prompt
    | SpecificPrompted(pattern: string, out: string, recovery: string) // slow-command prompt

  /** The first check `run_command` fails before sending anything, in the order
      empty command, not alive, not responsive; None when all three pass. */
  function Refusal(command: string, alive: bool, answered: bool): Option<string> {
    if Strip(command) == "" then Some("Empty command.")
    else if !alive then Some(NotConnected)
    else if !answered then Some(NotResponding)
    else None
  }

  /** How a loop exit is turned into an outcome: cleanup after the END marker, no
      recovery after the no-progress exit, recovery otherwise. */
  function Conclusion(command: string, env: RunEnv, exit: LoopExit): Outcome
    requires !exit.TraceEnd?
  {
    match exit
    case EndMarker(out) =>
      Finished(PostProcess(out, command, EndMarkerOf(env.markerId), ExitMarker(env.exitId)))
    case Stalled(elapsedMs, quietMs, out) => Stuck(elapsedMs, quietMs, out)
    case HardTimeout(out) => TimedOut(out, RecoveryMessage(env.recovery))
    case PromptSeen(pattern, out) => Prompted(pattern, out, RecoveryMessage(env.recovery))
    case SpecificPromptSeen(pattern, out) => SpecificPrompted(pattern, out, RecoveryMessage(env.recovery))
  }

  /** How the poll loop ends for this command and environment. */
  function LoopExitOf(command: string, timeoutSeconds: int, env: RunEnv): LoopExit {
    var cfg := RunConfig(command, timeoutSeconds, env);
    Run(cfg, Initial(cfg), env.trace)
  }

  /** The outcome once the command was sent without error. The loop cannot run out
      of trace in a complete environment (`DecidedByDeadline`). */
  function Awaited(command: string, timeoutSeconds: int, env: RunEnv): Outcome
    requires Complete(env, timeoutSeconds)
  {
    var cfg := RunConfig(command, timeoutSeconds, env);
    DecidedByDeadline(cfg, Initial(cfg), env.trace, |env.trace| - 1);
    Conclusion(command, env, LoopExitOf(command, timeoutSeconds, env))
  }

  /** The outcome once the checks passed: sending raises EOF (the connection is
      lost), raises another exception (its text is the reason), or the loop runs. */
  function Delivered(command: string, timeoutSeconds: int, env: RunEnv): Outcome
    requires Complete(env, timeoutSeconds)
  {
    if env.send.SendOk? then Awaited(command, timeoutSeconds, env) else Refused(SendFailure(env.send))
  }

  /** The reason an exception while sending gives. */
  function SendFailure(send: SendResult): string {
    if send.SendRaised? then send.message else ConnectionLost
  }

  /** How `run_command` ends, given whether the session was alive. */
  function OutcomeOf(command: string, timeoutSeconds: int, env: RunEnv, alive: bool): Outcome
    requires Complete(env, timeoutSeconds)
  {
    match Refusal(command, alive, env.answered)
    case Some(reason) => Refused(reason)
    case None => Delivered(command, timeoutSeconds, env)
  }

  /** The checks before sending come in the order empty command, not alive, not
      responsive: each reason is given exactly when the earlier checks pass and its
      own fails. */
  lemma RefusalOrder(command: string, alive: bool, answered: bool)
    ensures Refusal(command, alive, answered) == Some("Empty command.") <==> Strip(command) == ""
    ensures Refusal(command, alive, answered) == Some(NotConnected) <==> Strip(command) != "" && !alive
    ensures Refusal(command, alive, answered) == Some(NotResponding) <==> Strip(command) != "" && alive && !answered
    ensures Refusal(command, alive, answered).None? <==> Strip(command) != "" && alive && answered
  {
    assert |"Empty command."| == 14 && |NotConnected| == 62 && |NotResponding| == 75;
  }

  /** Once the checks pass and the command is sent, the outcome is the handling of
      the exit of the poll loop. */
  lemma OutcomeOfExit(command: string, timeoutSeconds: int, env: RunEnv, alive: bool)
    requires Complete(env, timeoutSeconds) && !OutcomeOf(command, timeoutSeconds, env, alive).Refused?
    ensures !LoopExitOf(command, timeoutSeconds, env).TraceEnd?
    ensures OutcomeOf(command, timeoutSeconds, env, alive)
         == Conclusion(command, env, LoopExitOf(command, timeoutSeconds, env))
  {
    LoopDecided(command, timeoutSeconds, env);
  }

  /** In a complete environment the poll loop ends before the trace runs out. */
  lemma LoopDecided(command: string, timeoutSeconds: int, env: RunEnv)
    requires Complete(env, timeoutSeconds)
    ensures !LoopExitOf(command, timeoutSeconds, env).TraceEnd?
  {
    var cfg := RunConfig(command, timeoutSeconds, env);
    DecidedByDeadline(cfg, Initial(cfg), env.trace, |env.trace| - 1);
  }

  /** Which outcome each loop exit gives. */
  lemma ConclusionKinds(command: string, env: RunEnv, exit: LoopExit)
    requires !exit.TraceEnd?
    ensures Conclusion(command, env, exit).Stuck? <==> exit.Stalled?
    ensures exit.Stalled? ==> Conclusion(command, env, exit) == Stuck(exit.elapsedMs, exit.quietMs, exit.output)
    ensures Conclusion(command, env, exit).Finished? <==> exit.EndMarker?
    ensures exit.EndMarker? ==>
      Conclusion(command, env, exit).cleaned
      == PostProcess(exit.output, command, EndMarkerOf(env.markerId), ExitMarker(env.exitId))
    ensures Conclusion(command, env, exit).Prompted? <==> exit.PromptSeen?
    ensures exit.PromptSeen? ==> Conclusion(command, env, exit).pattern == exit.pattern
    ensures Conclusion(command, env, exit).SpecificPrompted? <==> exit.SpecificPromptSeen?
    ensures exit.SpecificPromptSeen? ==> Conclusion(command, env, exit).pattern == exit.pattern
    ensures !Conclusion(command, env, exit).Refused?
  {
  }

  /** A slow/silent command never gets the UNCERTAIN verdict. */
  lemma SlowNeverUncertain(command: string, timeoutSeconds: int, env: RunEnv, alive: bool)
    requires Complete(env, timeoutSeconds) && IsSlowSilentCommand(command).0
    ensures !OutcomeOf(command, timeoutSeconds, env, alive).Stuck?
  {
    if !OutcomeOf(command, timeoutSeconds, env, alive).Refused? {
      var cfg := RunConfig(command, timeoutSeconds, env);
      OutcomeOfExit(command, timeoutSeconds, env, alive);
      SlowNeverStalls(cfg, Initial(cfg), env.trace);
      ConclusionKinds(command, env, LoopExitOf(command, timeoutSeconds, env));
    }
  }

  /** UNCERTAIN comes only for an ordinary command, and only once both the elapsed
      time and the time since the last output exceed the minimum wait. */
  lemma UncertainNeedsQuiet(command: string, timeoutSeconds: int, env: RunEnv, alive: bool)
    requires Complete(env, timeoutSeconds) && OutcomeOf(command, timeoutSeconds, env, alive).Stuck?
    ensures !IsSlowSilentCommand(command).0
    ensures OutcomeOf(command, timeoutSeconds, env, alive).elapsedMs > MinTimeBeforeStuckCheckMs
    ensures OutcomeOf(command, timeoutSeconds, env, alive).quietMs > MinTimeBeforeStuckCheckMs
  {
    var cfg := RunConfig(command, timeoutSeconds, env);
    var exit := LoopExitOf(command, timeoutSeconds, env);
    OutcomeOfExit(command, timeoutSeconds, env, alive);
    ConclusionKinds(command, env, exit);
    StallNeedsSilence(cfg, Initial(cfg), env.trace);
  }

  /** WAITING_FOR_INPUT names a row of the full prompt table for an ordinary command,
      and a row of the narrow table of specific prompts for a slow/silent one. */
  lemma PromptVerdicts(command: string, timeoutSeconds: int, env: RunEnv, alive: bool)
    requires Complete(env, timeoutSeconds)
    ensures var o := OutcomeOf(command, timeoutSeconds, env, alive);
      o.Prompted? ==> (!IsSlowSilentCommand(command).0
        && exists k :: 0 <= k < |InteractivePromptPatterns| && InteractivePromptPatterns[k].regex == o.pattern)
    ensures var o := OutcomeOf(command, timeoutSeconds, env, alive);
      o.SpecificPrompted? ==> (IsSlowSilentCommand(command).0
        && exists k :: 0 <= k < |SpecificPromptPatterns| && SpecificPromptPatterns[k].regex == o.pattern)
  {
    if !OutcomeOf(command, timeoutSeconds, env, alive).Refused? {
      var cfg := RunConfig(command, timeoutSeconds, env);
      OutcomeOfExit(command, timeoutSeconds, env, alive);
      ConclusionKinds(command, env, LoopExitOf(command, timeoutSeconds, env));
      PromptTables(cfg, Initial(cfg), env.trace);
    }
  }

  /** A run whose END marker arrived keeps only clean lines, and neither the first
      nor the last is empty. */
  lemma FinishedLinesClean(command: string, timeoutSeconds: int, env: RunEnv, alive: bool)
    requires Complete(env, timeoutSeconds) && OutcomeOf(command, timeoutSeconds, env, alive).Finished?
    ensures var ls := OutcomeOf(command, timeoutSeconds, env, alive).cleaned.lines;
      && (forall k :: 0 <= k < |ls| ==> CleanLine(ls[k]))
      && (ls != [] ==> ls[0] != "" && ls[|ls| - 1] != "")
  {
    var exit := LoopExitOf(command, timeoutSeconds, env);
    OutcomeOfExit(command, timeoutSeconds, env, alive);
    ConclusionKinds(command, env, exit);
    PostProcessShape(exit.output, command, EndMarkerOf(env.markerId), ExitMarker(env.exitId));
  }

  class Shell {
    const shellId: string
    const deviceSerial: string
    const shellType: ShellType
    var processOpen: bool
    var isConnected: bool
    var lastActivity: int
    ghost var spawns: nat
    ghost var sentCommands: seq<string>

    /** A connected session always has its process. */
    ghost predicate Valid()
      reads this
    {
      isConnected ==> processOpen
    }

    constructor (shellId: string, deviceSerial: string, shellType: ShellType)
      ensures this.shellId == shellId && this.deviceSerial == deviceSerial && this.shellType == shellType
      ensures !processOpen && !isConnected && lastActivity == 0
      ensures spawns == 0 && sentCommands == []
      ensures Valid()
    {
      this.shellId := shellId;
      this.deviceSerial := deviceSerial;
      this.shellType := shellType;
      processOpen := false;
      isConnected := false;
      lastActivity := 0;
      spawns := 0;
      sentCommands := [];
    }

    /** `is_alive()`, given whether the process itself is alive. */
    predicate IsAlive(alive: bool)
      reads this
      ensures IsAlive(alive) ==> isConnected && processOpen && alive
      ensures !isConnected || !processOpen ==> !IsAlive(alive)
    {
      isConnected && processOpen && alive
    }

    // -------------------------------------------------------------------------
    // Connection lifecycle

    function ErrorText(reason: string): (r: string)
      ensures StartsWith(r, "STATUS: ERROR\n")
    {
      ErrorReply("Shell", shellId, reason)
    }

    function AlreadyConnectedText(): string {
      "STATUS: ALREADY_CONNECTED\nShell: " + shellId + "\nDevice: " + deviceSerial + "\nType: " + shellType.Value()
    }

    function ConnectedText(): (r: string)
      ensures StartsWith(r, "STATUS: CONNECTED\n")
    {
      "STATUS: CONNECTED\nShell: " + shellId + "\nDevice: " + deviceSerial + "\nType: " + shellType.Value()
        + "\nReady for commands."
    }

    /** `Connects` for this session's type. */
    predicate ConnectSucceeds(script: ConnectScript) {
      Connects(shellType, script)
    }

    /** The text `connect` returns when the session was not already alive. */
    function ConnectText(script: ConnectScript): string {
      match script
      case SpawnRaised(reason) => ErrorText(reason)
      case Spawned(prompt, su) =>
        if prompt == EofBeforePrompt then
          ErrorText("ADB connection failed.\nAction: Check device " + deviceSerial + " is connected.")
        else if prompt == NoPrompt then
          ErrorText("Could not detect shell prompt.\nAction: Check device " + deviceSerial + " manually.")
        else if shellType == NonRoot then ConnectedText()
        else SuText(su)
    }

    function SuText(su: SuReply): string {
      match su
      case SuRootPrompt(uidZero) =>
        if uidZero then ConnectedText()
        else ErrorText("su succeeded but uid != 0.\nAction: Root may be broken on device.")
      case SuDenied =>
        ErrorText("Root access denied.\nAction: Grant root in Magisk/SuperSU on device " + deviceSerial + ".")
      case SuNotFound =>
        ErrorText("su not found.\nAction: Device " + deviceSerial + " is not rooted.")
      case SuAwaitingGrant =>
        ErrorText("Waiting for root permission.\nAction: Tap ALLOW on device " + deviceSerial + " screen.")
      case SuTimeout =>
        ErrorText("Timeout during su.\nAction: Check device screen for prompts.")
      case SuEof =>
        ErrorText("Shell died during su.\nAction: Device may have disconnected.")
    }

    /** The reply of a connection attempt is CONNECTED exactly when it succeeds, and an
        ERROR otherwise. */
    lemma ConnectTextStatus(script: ConnectScript)
      ensures StartsWith(ConnectText(script), "STATUS: CONNECTED\n") <==> ConnectSucceeds(script)
      ensures !ConnectSucceeds(script) ==> StartsWith(ConnectText(script), "STATUS: ERROR\n")
    {
      var t := ConnectText(script);
      if !ConnectSucceeds(script) {
        if script.Spawned? && script.prompt != EofBeforePrompt && script.prompt != NoPrompt {
          assert t == SuText(script.su);
        }
        ErrorIsNotConnected(t);
      }
    }

    static lemma ErrorIsNotConnected(t: string)
      requires StartsWith(t, "STATUS: ERROR\n")
      ensures !StartsWith(t, "STATUS: CONNECTED\n")
    {
      assert t[8] == "STATUS: ERROR\n"[8];
    }

    /** `_force_close()`: no process, not connected, nothing else changes. */
    method ForceClose()
      modifies this
      ensures !processOpen && !isConnected
      ensures lastActivity == old(lastActivity) && spawns == old(spawns) && sentCommands == old(sentCommands)
    {
      processOpen := false;
      isConnected := false;
    }

    /** `connect()`. An alive session is left alone; otherwise a process is spawned
        (unless the spawn raises) and the attempt either connects it or goes through
        `_force_close`. */
    method Connect(alive: bool, script: ConnectScript, now: int) returns (result: string)
      requires Valid()
      modifies this
      ensures Valid()
      ensures sentCommands == old(sentCommands)
      ensures old(IsAlive(alive)) ==>
        result == AlreadyConnectedText() && spawns == old(spawns)
        && isConnected && processOpen && lastActivity == old(lastActivity)
      ensures !old(IsAlive(alive)) ==>
        result == ConnectText(script) && spawns == old(spawns) + (if script.Spawned? then 1 else 0)
      ensures !old(IsAlive(alive)) && ConnectSucceeds(script) ==>
        isConnected && processOpen && lastActivity == now
      ensures !old(IsAlive(alive)) && !ConnectSucceeds(script) ==>
        !isConnected && !processOpen && lastActivity == old(lastActivity)
    {
      if isConnected && processOpen && alive {
        return AlreadyConnectedText();
      }
      result := ConnectText(script);
      if script.Spawned? {
        processOpen := true;
        spawns := spawns + 1;
      }
      if ConnectSucceeds(script) {
        isConnected := true;
        lastActivity := now;
      } else {
        ForceClose();
      }
    }

    /** `disconnect()`: whatever the exits and the close do, the session ends up with no
        process and not connected. */
    method Disconnect() returns (result: string)
      modifies this
      ensures !processOpen && !isConnected
      ensures lastActivity == old(lastActivity) && spawns == old(spawns) && sentCommands == old(sentCommands)
      ensures result == "STATUS: DISCONNECTED\nShell: " + shellId
    {
      processOpen := false;
      isConnected := false;
      result := "STATUS: DISCONNECTED\nShell: " + shellId;
    }

    /** `get_status()`, given the process liveness, the ping answer and the clock. */
    function GetStatus(alive: bool, answered: bool, now: int): (r: ShellStatus)
      reads this
      ensures r.connected <==> isConnected && processOpen && alive
      ensures r.responsive <==> r.connected && answered
      ensures r.idleMs.None? <==> lastActivity == 0
      ensures r.idleMs.Some? ==> r.idleMs.value == now - lastActivity
      ensures r.shellId == shellId && r.device == deviceSerial && r.shellType == shellType.Value()
    {
      ShellStatus(shellId, deviceSerial, shellType.Value(),
                  isConnected && IsAlive(alive),
                  isConnected && IsAlive(alive) && answered,
                  if lastActivity != 0 then Some(now - lastActivity) else None)
    }

    // -------------------------------------------------------------------------
    // Running a command

    function TimeoutText(command: string, timeoutSeconds: int, slow: (bool, string), out: string,
                         recovery: string, warning: Option<string>): string {
      Reply("STATUS: TIMEOUT\n", "Shell: " + shellId + "\nCommand: " + Prefix(command, 100)
        + "\nTimeout: " + IntToString(timeoutSeconds) + "s"
        + "\nPartial output (" + NatToString(|out|) + " chars captured)\n"
        + recovery + (if slow.0 then "\nNote: This was identified as a slow command (" + slow.1 + ")" else "")
        + "\nOUTPUT:\n" + OrNone(LastN(out, 2000)) + WarningSuffix(warning))
    }

    function PromptText(command: string, pattern: string, out: string, recovery: string,
                        warning: Option<string>): string {
      Reply("STATUS: WAITING_FOR_INPUT\n", "Shell: " + shellId + "\nCommand: " + Prefix(command, 100)
        + "\nDetected interactive prompt matching: " + pattern
        + "\nThe command is waiting for user input and would hang.\n"
        + recovery + "\nOUTPUT:\n" + LastN(out, 2000) + WarningSuffix(warning))
    }

    function SpecificPromptText(command: string, pattern: string, out: string, recovery: string,
                                warning: Option<string>): string {
      Reply("STATUS: WAITING_FOR_INPUT\n", "Shell: " + shellId + "\nCommand: " + Prefix(command, 100)
        + "\nDetected specific prompt: " + pattern + "\n"
        + recovery + "\nOUTPUT:\n" + LastN(out, 2000) + WarningSuffix(warning))
    }

    function UncertainText(command: string, elapsedMs: int, quietMs: int, out: string,
                           warning: Option<string>): string {
      Reply("STATUS: UNCERTAIN\n", "Shell: " + shellId + "\nCommand: " + Prefix(command, 100)
        + "\nElapsed: " + Seconds1(elapsedMs) + "s\nNo output for: " + Seconds1(quietMs) + "s\n\n"
        + "PARTIAL OUTPUT SO FAR (" + NatToString(|out|) + " chars):\n"
        + OrNone(LastN(out, 1500)) + WarningSuffix(warning))
    }

    /** The reply for each way `run_command` can end, with the command's advisory and
        slow/silent verdict already worked out. It opens with its status: ERROR for a
        refusal or a lost connection, TIMEOUT, WAITING_FOR_INPUT, UNCERTAIN; a run whose
        END marker arrived names the shell on its first line and gives on its second
        SUCCESS exactly for exit code 0, COMMAND_FAILED for another code and COMPLETED
        when no code was found. */
    function Format(command: string, timeoutSeconds: int, outcome: Outcome,
                    warning: Option<string>, slow: (bool, string)): (r: string)
      ensures outcome.Refused? ==> StartsWith(r, "STATUS: ERROR\n")
      ensures outcome.TimedOut? ==> StartsWith(r, "STATUS: TIMEOUT\n")
      ensures outcome.Prompted? || outcome.SpecificPrompted? ==> StartsWith(r, "STATUS: WAITING_FOR_INPUT\n")
      ensures outcome.Stuck? ==> StartsWith(r, "STATUS: UNCERTAIN\n")
      ensures outcome.Finished? ==>
        StartsWith(r, "SHELL: " + shellId + "\n" + StatusLine(outcome.cleaned.exitCode) + "\n")
    {
      match outcome
      case Refused(reason) => ErrorText(reason)
      case Finished(cleaned) =>
        var parts := ReportParts(shellId, cleaned.exitCode, warning, cleaned.lines);
        ReportStatus(shellId, cleaned.exitCode, warning, cleaned.lines);
        JoinHead(parts, "\n");
        Unlines(parts)
      case Stuck(elapsedMs, quietMs, out) => UncertainText(command, elapsedMs, quietMs, out, warning)
      case TimedOut(out, recovery) => TimeoutText(command, timeoutSeconds, slow, out, recovery, warning)
      case Prompted(pattern, out, recovery) => PromptText(command, pattern, out, recovery, warning)
      case SpecificPrompted(pattern, out, recovery) =>
        SpecificPromptText(command, pattern, out, recovery, warning)
    }

    /** The reply, with the advisory of `_check_dangerous_command` and the verdict of
        `_is_slow_silent_command` for this command. */
    function Render(command: string, timeoutSeconds: int, outcome: Outcome): string {
      Format(command, timeoutSeconds, outcome, CheckDangerousCommand(command), IsSlowSilentCommand(command))
    }

    /** An exception while sending ends the call with the ERROR reply naming this
        shell: EOF gives the connection-lost reason, any other exception its own text. */
    lemma SendFaultReplies(command: string, timeoutSeconds: int, env: RunEnv)
      requires Complete(env, timeoutSeconds) && !env.send.SendOk?
      ensures Render(command, timeoutSeconds, Delivered(command, timeoutSeconds, env))
        == ErrorReply("Shell", shellId, if env.send.SendEof? then ConnectionLost else env.send.message)
    {
    }

    /** The handling of a loop exit; the activity stamp moves when the END marker
        arrived, after the cleanup. */
    method Conclude(command: string, env: RunEnv, exit: LoopExit) returns (outcome: Outcome)
      requires |env.recovery| == StageCount && !exit.TraceEnd?
      modifies this`lastActivity
      ensures outcome == Conclusion(command, env, exit)
      ensures lastActivity == if exit.EndMarker? then env.finished else old(lastActivity)
    {
      match exit
      case EndMarker(out) =>
        var exitCode, clean := PostProcessOutput(out, command, EndMarkerOf(env.markerId), ExitMarker(env.exitId));
        lastActivity := env.finished;
        outcome := Finished(Cleaned(exitCode, clean));
      case Stalled(elapsedMs, quietMs, out) =>
        outcome := Stuck(elapsedMs, quietMs, out);
      case HardTimeout(out) =>
        var recovery, _ := MultiStageInterrupt(env.recovery);
        outcome := TimedOut(out, recovery);
      case PromptSeen(pattern, out) =>
        var recovery, _ := MultiStageInterrupt(env.recovery);
        outcome := Prompted(pattern, out, recovery);
      case SpecificPromptSeen(pattern, out) =>
        var recovery, _ := MultiStageInterrupt(env.recovery);
        outcome := SpecificPrompted(pattern, out, recovery);
    }

    /** The poll loop, then the handling of its exit. */
    method Await(command: string, timeoutSeconds: int, env: RunEnv) returns (outcome: Outcome)
      requires Complete(env, timeoutSeconds)
      modifies this`lastActivity
      ensures outcome == Awaited(command, timeoutSeconds, env)
      ensures lastActivity == if outcome.Finished? then env.finished else old(lastActivity)
    {
      var cfg := RunConfig(command, timeoutSeconds, env);
      var exit := PollLoop(cfg, env.trace);
      DecidedByDeadline(cfg, Initial(cfg), env.trace, |env.trace| - 1);
      outcome := Conclude(command, env, exit);
    }

    /** Sending the wrapped command, then the exception it raised or the loop. Only
        EOF marks the session disconnected. */
    method Deliver(command: string, timeoutSeconds: int, env: RunEnv) returns (outcome: Outcome)
      requires Valid()
      requires Complete(env, timeoutSeconds)
      modifies this`sentCommands, this`isConnected, this`lastActivity
      ensures Valid()
      ensures outcome == Delivered(command, timeoutSeconds, env)
      ensures sentCommands == old(sentCommands)
        + [WrappedCommand(command, EndMarkerOf(env.markerId), ExitMarker(env.exitId))]
      ensures isConnected == (old(isConnected) && !env.send.SendEof?)
      ensures lastActivity == if outcome.Finished? then env.finished else old(lastActivity)
    {
      sentCommands := sentCommands + [WrappedCommand(command, EndMarkerOf(env.markerId), ExitMarker(env.exitId))];
      if env.send.SendEof? {
        isConnected := false;
        return Refused(ConnectionLost);
      } else if env.send.SendRaised? {
        return Refused(env.send.message);
      }
      outcome := Await(command, timeoutSeconds, env);
    }

    /** Everything `run_command` does except the wording of its reply: a refusal sends
        nothing and changes nothing; otherwise the wrapped command is sent exactly
        once, an EOF while sending marks the session disconnected (any other exception
        leaves the flag as it was), and the activity
        stamp moves only when the END marker arrived. */
    method Execute(command: string, timeoutSeconds: int, env: RunEnv) returns (outcome: Outcome)
      requires Valid()
      requires Complete(env, timeoutSeconds)
      modifies this`sentCommands, this`isConnected, this`lastActivity
      ensures Valid()
      ensures outcome == OutcomeOf(command, timeoutSeconds, env, old(IsAlive(env.alive)))
      ensures Refusal(command, old(IsAlive(env.alive)), env.answered).Some? ==>
        sentCommands == old(sentCommands) && isConnected == old(isConnected) && lastActivity == old(lastActivity)
      ensures Refusal(command, old(IsAlive(env.alive)), env.answered).None? ==>
        sentCommands == old(sentCommands)
          + [WrappedCommand(command, EndMarkerOf(env.markerId), ExitMarker(env.exitId))]
        && isConnected == (old(isConnected) && !env.send.SendEof?)
        && lastActivity == if outcome.Finished? then env.finished else old(lastActivity)
    {
      var refusal := Refusal(command, IsAlive(env.alive), env.answered);
      if refusal.Some? {
        return Refused(refusal.value);
      }
      outcome := Deliver(command, timeoutSeconds, env);
    }

    /** `run_command(command, timeout_seconds)`: the reply is the rendering of how the
        call ended, with the effects of `Execute` on the session. */
    method RunCommand(command: string, timeoutSeconds: int, env: RunEnv) returns (result: string)
      requires Valid()
      requires Complete(env, timeoutSeconds)
      modifies this`sentCommands, this`isConnected, this`lastActivity
      ensures Valid()
      ensures result == Render(command, timeoutSeconds, OutcomeOf(command, timeoutSeconds, env, old(IsAlive(env.alive))))
      ensures Refusal(command, old(IsAlive(env.alive)), env.answered).Some? ==>
        sentCommands == old(sentCommands) && isConnected == old(isConnected) && lastActivity == old(lastActivity)
      ensures Refusal(command, old(IsAlive(env.alive)), env.answered).None? ==>
        sentCommands == old(sentCommands)
          + [WrappedCommand(command, EndMarkerOf(env.markerId), ExitMarker(env.exitId))]
        && isConnected == (old(isConnected) && !env.send.SendEof?)
        && lastActivity == if OutcomeOf(command, timeoutSeconds, env, true).Finished? then env.finished else old(lastActivity)
    {
      var outcome := Execute(command, timeoutSeconds, env);
      result := Render(command, timeoutSeconds, outcome);
    }
  }
}
