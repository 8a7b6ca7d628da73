/**
 * `ShellManager` (core/manager.py): the registry of sessions keyed by shell id, the
 * map of background jobs, and the operations that consult and change them. The adb
 * `get-state` probe, the uuid suffixes, the clock and each session's environment are
 * inputs; the sessions themselves are `Sessions.Shell` objects.
 */
module Pool {
  import opened Wrappers
  import opened Text
  import opened Models
  import opened Sessions
  import opened Batch

  // ---------------------------------------------------------------------------
  // Shell ids

  function TypeTag(t: ShellType): string {
    if t == Root then "_root_" else "_user_"
  }

  /** `_generate_shell_id`: the first eight characters of the serial, the type, and the
      first four characters of a fresh hex string. */
  function ShellIdOf(serial: string, t: ShellType, hex: string): (r: string)
    ensures |hex| >= 4 ==> |r| == |Prefix(serial, 8)| + 10 && |r| <= 18
  {
    Prefix(serial, 8) + TypeTag(t) + Prefix(hex, 4)
  }

  /** An id determines the type, the serial's first eight characters and the four hex
      characters it was made from. */
  lemma ShellIdDecodes(s1: string, t1: ShellType, h1: string, s2: string, t2: ShellType, h2: string)
    requires |h1| >= 4 && |h2| >= 4
    requires ShellIdOf(s1, t1, h1) == ShellIdOf(s2, t2, h2)
    ensures t1 == t2 && Prefix(s1, 8) == Prefix(s2, 8) && h1[..4] == h2[..4]
  {
    var id := ShellIdOf(s1, t1, h1);
    var n := |Prefix(s1, 8)|;
    assert id[..n] == Prefix(s1, 8) && id[..n] == Prefix(s2, 8);
    assert id[n..n + 6] == TypeTag(t1) && id[n..n + 6] == TypeTag(t2);
    assert id[n + 6..] == h1[..4] && id[n + 6..] == h2[..4];
  }

  /** The `shell_type` argument: ROOT exactly when it lower-cases to "root". */
  function ParseShellType(name: string): ShellType {
    if Lower(name) == "root" then Root else NonRoot
  }

  /** Parsing a type's own value gives the type back, and parsing ignores case. */
  lemma ParseShellTypeValue(t: ShellType, name: string)
    ensures ParseShellType(t.Value()) == t
    ensures ParseShellType(Lower(name)) == ParseShellType(name)
    ensures ParseShellType("ROOT") == Root && ParseShellType("Root") == Root
  {
    assert Lower(Lower(name)) == Lower(name);
    if t == NonRoot {
      assert Lower(t.Value())[0] == 'n';
    }
  }

  // ---------------------------------------------------------------------------
  // The device check of `start_shell`

  /** What `adb get-state` did: printed something, timed out, or raised. */
  datatype StateProbe = StateOutput(stdout: string) | StateTimeout | StateRaised(message: string)

  /** The refusal of `start_shell` before any session is made, if the device is not in
      state "device". */
  function StateRefusal(serial: string, probe: StateProbe): (r: Option<string>)
    ensures r.None? <==> probe.StateOutput? && Strip(probe.stdout) == "device"
    ensures r.Some? ==> StartsWith(r.value, ErrorHead("Device", serial))
  {
    match probe
    case StateOutput(stdout) =>
      var state := Strip(stdout);
      if state != "device" then
        Some(ErrorReply("Device", serial, "Device state is '" + state + "', not 'device'.\nAction: Ensure device is connected and authorized."))
      else None
    case StateTimeout => Some(ErrorReply("Device", serial, "Timeout checking device state.\nAction: Check USB connection."))
    case StateRaised(message) => Some(ErrorReply("Device", serial, message))
  }

  /** `start_shell` keeps a session when its connect text says so. */
  predicate Registers(connectText: string) {
    Contains(connectText, "STATUS: CONNECTED") || Contains(connectText, "STATUS: ALREADY_CONNECTED")
  }

  lemma StartsWithContains(s: string, p: string, q: string)
    requires StartsWith(s, p + q)
    ensures Contains(s, p)
  {
    assert s[..|p|] == (p + q)[..|p|] == p;
    assert StartsAt(s, 0, p);
  }

  // ---------------------------------------------------------------------------
  // Replies of the manager

  const NotFound := "Shell not found."
  const StopNotFound := "Shell not found.\nAction: Use list_shells to see active shells."
  const RunNotFound := "Shell not found.\nAction: Use list_shells to see active shells, or start_shell to create one."
  const NotConnectedReason := "Shell not connected."

  function StoppedText(count: nat): string {
    "STATUS: STOPPED\nClosed " + NatToString(count) + " shell(s)."
  }

  /** The reply `run_command` gives for one call in a given environment. */
  function Answer(shell: Shell, command: string, timeoutSeconds: int, env: RunEnv, alive: bool): string
    requires Complete(env, timeoutSeconds)
  {
    shell.Render(command, timeoutSeconds, OutcomeOf(command, timeoutSeconds, env, alive))
  }

  // ---------------------------------------------------------------------------
  // Background jobs

  function JobIdOf(hex: string): string {
    "job_" + Prefix(hex, 8)
  }

  function JobFile(jobId: string): string {
    "/data/local/tmp/" + jobId + ".out"
  }

  /** The detached command: output and errors go to the job's file, and the shell
      echoes the PID. */
  function BackgroundCommand(command: string, jobId: string): string {
    "nohup " + command + " > " + JobFile(jobId) + " 2>&1 & echo $!"
  }

  function CatCommand(jobId: string): string {
    "cat " + JobFile(jobId) + " 2>/dev/null || echo '(no output yet)'"
  }

  function PsCommand(jobId: string): string {
    "ps | grep -v grep | grep " + jobId + " || echo 'COMPLETED'"
  }

  /** A job is kept when the start reply reports success or completion. */
  predicate Launched(reply: string) {
    Contains(reply, "STATUS: SUCCESS") || Contains(reply, "STATUS: COMPLETED")
  }

  /** `line.strip().isdigit()`. */
  predicate IsPidLine(line: string) {
    IsDigits(Strip(line))
  }

  /** The PID among the lines of a reply: the first line that is all digits once
      stripped. */
  function PidIn(lines: seq<string>): (r: Option<string>)
    ensures r.Some? ==> IsDigits(r.value)
  {
    match FirstWhere(lines, IsPidLine)
    case Some(k) => Some(Strip(lines[k]))
    case None => None
  }

  /** The loop of `run_background` that looks for the PID in the reply's lines. */
  method FindPid(lines: seq<string>) returns (pid: Option<string>)
    ensures pid == PidIn(lines)
  {
    var i := 0;
    while i < |lines|
      invariant 0 <= i <= |lines|
      invariant forall j :: 0 <= j < i ==> !IsPidLine(lines[j])
    {
      if IsPidLine(lines[i]) {
        FirstWhereIs(lines, IsPidLine, i);
        return Some(Strip(lines[i]));
      }
      NoneThrough(lines, IsPidLine, i);
      i := i + 1;
    }
    FirstWhereIs(lines, IsPidLine, i);
    return None;
  }

  function StartedText(jobId: string, shellId: string, pid: Option<string>, command: string): string {
    "STATUS: STARTED\nJob: " + jobId + "\nShell: " + shellId + "\nPID: "
    + (if pid.Some? then pid.value else "unknown")
    + "\nCommand: " + Prefix(command, 100) + "\nOutput file: " + JobFile(jobId)
  }

  function StartFailed(reply: string): (r: string)
    ensures StartsWith(r, "STATUS: ERROR\n")
  {
    Reply("STATUS: ERROR\n", "Reason: Failed to start background job.\nDetails: " + reply)
  }

  /** The text `run_background` returns for the reply to the detached command. */
  function LaunchReply(jobId: string, shellId: string, command: string, reply: string): string {
    if Launched(reply) then StartedText(jobId, shellId, PidIn(Lines(reply)), command) else StartFailed(reply)
  }

  /** What `run_background` does with the reply to the detached command: the new job
      map and the text it returns. */
  function LaunchEffect(jobs: map<string, BackgroundJob>, jobId: string, shellId: string, command: string,
                        now: int, reply: string): (map<string, BackgroundJob>, string)
  {
    (if Launched(reply) then jobs[jobId := BackgroundJob(jobId, command, shellId, now)] else jobs,
     LaunchReply(jobId, shellId, command, reply))
  }

  /** A job is registered, under its id and with its shell, command and start time,
      exactly when the reply reports success or completion, and the text is then
      STARTED with the PID of the reply; otherwise nothing is registered and the text
      is an ERROR that quotes the reply. */
  lemma LaunchEffectSpec(jobs: map<string, BackgroundJob>, jobId: string, shellId: string, command: string,
                         now: int, reply: string)
    ensures var (jobs', text) := LaunchEffect(jobs, jobId, shellId, command, now, reply);
      && (Launched(reply) ==>
            jobs' == jobs[jobId := BackgroundJob(jobId, command, shellId, now)]
            && StartsWith(text, "STATUS: STARTED\nJob: " + jobId + "\nShell: " + shellId + "\nPID: "))
      && (!Launched(reply) ==>
            && jobs' == jobs
            && StartsWith(text, "STATUS: ERROR\n")
            && |reply| <= |text| && text[|text| - |reply|..] == reply)
  {
  }

  /** The text `run_background` returns for the reply, searching the PID only when
      the job was launched. */
  method LaunchText(jobId: string, shellId: string, command: string, reply: string) returns (result: string)
    ensures result == LaunchReply(jobId, shellId, command, reply)
  {
    if Launched(reply) {
      var pid := FindPid(Lines(reply));
      result := StartedText(jobId, shellId, pid, command);
    } else {
      result := StartFailed(reply);
    }
  }

  /** The report of `check_background_job`: RUNNING exactly when the process probe
      does not mention COMPLETED, then the job, its age and the file's contents. */
  function JobReport(jobId: string, job: BackgroundJob, output: string, probe: string, now: int): (r: string)
    ensures StartsWith(r, "STATUS: RUNNING\n") <==> !Contains(probe, "COMPLETED")
    ensures StartsWith(r, "STATUS: COMPLETED\n") <==> Contains(probe, "COMPLETED")
  {
    var body := "Job: " + jobId + "\nCommand: " + Prefix(job.command, 100)
      + "\nStarted: " + Seconds1(now - job.startTime) + "s ago\n" + output;
    if Contains(probe, "COMPLETED") then
      var r := Reply("STATUS: COMPLETED\n", body);
      assert r[8] != "STATUS: RUNNING\n"[8];
      r
    else
      var r := Reply("STATUS: RUNNING\n", body);
      assert r[8] != "STATUS: COMPLETED\n"[8];
      r
  }

  // ---------------------------------------------------------------------------
  // Status texts

  function PyBool(b: bool): string {
    if b then "True" else "False"
  }

  /** The idle line, present only when the idle time is known and non-zero. */
  function IdleLine(idleMs: Option<int>): string {
    if idleMs.Some? && idleMs.value != 0 then "\nIdle: " + Seconds1(idleMs.value) + "s" else ""
  }

  function InfoText(id: string, st: ShellStatus): (r: string)
    ensures StartsWith(r, "STATUS: INFO\nShell: " + id + "\n")
  {
    Reply("STATUS: INFO\nShell: " + id + "\n",
          "Device: " + st.device + "\nType: " + st.shellType + "\nConnected: " + PyBool(st.connected)
          + "\nResponsive: " + PyBool(st.responsive) + IdleLine(st.idleMs))
  }

  /** The state of a listed session. */
  function StateLabel(connected: bool, responsive: bool): (r: string)
    ensures r == "ACTIVE" <==> connected && responsive
    ensures r == "DISCONNECTED" <==> !connected
    ensures r == "STALE" <==> connected && !responsive
  {
    if connected && responsive then "ACTIVE" else if !connected then "DISCONNECTED" else "STALE"
  }

  function ShellRow(id: string, st: ShellStatus): string {
    "  " + id + ": " + st.device + " (" + st.shellType + ") - " + StateLabel(st.connected, st.responsive)
  }

  const NoShells := "STATUS: NO_SHELLS\n" + "No active shells.\nAction: Use start_shell to create a shell."

  function ShellsHeader(n: nat): string {
    "STATUS: FOUND_" + NatToString(n) + "_SHELL(S)"
  }

  // ---------------------------------------------------------------------------
  // Insertion order of the registry

  predicate Distinct(s: seq<string>) {
    forall i, j :: 0 <= i < j < |s| ==> s[i] != s[j]
  }

  /** A key added to a dict keeps its old place, or goes last when it is new. */
  function AddId(order: seq<string>, id: string): (r: seq<string>)
    ensures forall x :: x in r <==> x in order || x == id
    ensures Distinct(order) ==> Distinct(r)
  {
    if id in order then order else order + [id]
  }

  /** The order after popping a key: the others, in their order. */
  function Without(order: seq<string>, id: string): (r: seq<string>)
    ensures forall x :: x in r <==> x in order && x != id
    ensures Distinct(order) ==> Distinct(r)
  {
    if order == [] then []
    else
      var rest := Without(order[1..], id);
      assert Distinct(order) ==> Distinct(order[1..]) && order[0] !in order[1..];
      (if order[0] == id then [] else [order[0]]) + rest
  }

  /** A new session, connected: its reply is registrable when the attempt succeeds
      and an ERROR otherwise. */
  method OpenSession(id: string, serial: string, t: ShellType, script: ConnectScript, now: int)
    returns (shell: Shell, result: string)
    ensures fresh(shell) && shell.Valid()
    ensures shell.shellId == id && shell.deviceSerial == serial && shell.shellType == t
    ensures result == shell.ConnectText(script)
    ensures Connects(t, script) ==>
      Registers(result) && shell.isConnected && shell.processOpen && shell.lastActivity == now
    ensures !Connects(t, script) ==>
      StartsWith(result, "STATUS: ERROR\n") && !shell.isConnected && !shell.processOpen
  {
    shell := new Shell(id, serial, t);
    result := shell.Connect(false, script, now);
    shell.ConnectTextStatus(script);
    if Connects(t, script) {
      StartsWithContains(result, "STATUS: CONNECTED", "\n");
    }
  }

  /** One `run_command` call on a session: the reply is `Answer` for the liveness the
      session had, and the session keeps its process and its invariant. */
  method AnswerIn(shell: Shell, command: string, timeoutSeconds: int, env: RunEnv) returns (reply: string)
    requires shell.Valid() && Complete(env, timeoutSeconds)
    modifies shell
    ensures shell.Valid() && shell.processOpen == old(shell.processOpen)
    ensures reply == Answer(shell, command, timeoutSeconds, env, old(shell.IsAlive(env.alive)))
  {
    reply := shell.RunCommand(command, timeoutSeconds, env);
  }

  /** The reply slot of a batch entry: nothing for an empty command, otherwise the
      session's reply for the command in its working directory. */
  function EntryReply(shell: Shell, e: Entry, env: RunEnv, alive: bool): string
    requires Complete(env, e.timeoutSeconds)
  {
    if e.command == "" then "" else Answer(shell, InDirectory(e.command, e.workingDirectory), e.timeoutSeconds, env, alive)
  }

  /** Runs one batch entry unless its command is empty. */
  method RunEntry(shell: Shell, e: Entry, env: RunEnv) returns (reply: string, ghost alive: bool)
    requires shell.Valid() && Complete(env, e.timeoutSeconds)
    modifies shell
    ensures shell.Valid()
    ensures alive == old(shell.IsAlive(env.alive))
    ensures reply == EntryReply(shell, e, env, alive)
  {
    alive := shell.IsAlive(env.alive);
    if e.command == "" {
      return "", alive;
    }
    reply := shell.RunCommand(InDirectory(e.command, e.workingDirectory), e.timeoutSeconds, env);
  }

  /** The reply slots stay those of their entries when one more entry's slot is added. */
  lemma EntryRepliesExtend(shell: Shell, specs: seq<CommandSpec>, envs: seq<RunEnv>,
                           replies: seq<string>, aliveBefore: seq<bool>, reply: string, alive: bool)
    requires |replies| == |aliveBefore| < |specs| == |envs|
    requires forall k :: 0 <= k < |specs| ==> Complete(envs[k], ReadSpec(specs[k], k).timeoutSeconds)
    requires forall k :: 0 <= k < |replies| ==>
      replies[k] == EntryReply(shell, ReadSpec(specs[k], k), envs[k], aliveBefore[k])
    requires reply == EntryReply(shell, ReadSpec(specs[|replies|], |replies|), envs[|replies|], alive)
    ensures forall k :: 0 <= k < |replies| + 1 ==>
      (replies + [reply])[k] == EntryReply(shell, ReadSpec(specs[k], k), envs[k], (aliveBefore + [alive])[k])
  {
    forall k | 0 <= k < |replies| + 1
      ensures (replies + [reply])[k] == EntryReply(shell, ReadSpec(specs[k], k), envs[k], (aliveBefore + [alive])[k])
    {
      if k < |replies| {
        assert (replies + [reply])[k] == replies[k] && (aliveBefore + [alive])[k] == aliveBefore[k];
      }
    }
  }

  /** One turn of the batch loop: runs entry i, records its line and keeps every
      reply slot that of its entry. */
  method BatchStep(shell: Shell, specs: seq<CommandSpec>, stopOnError: bool, envs: seq<RunEnv>, i: nat,
                   t: Tally, texts: seq<string>, ghost replies: seq<string>, ghost aliveBefore: seq<bool>)
    returns (t': Tally, texts': seq<string>, reply: string, ghost alive: bool)
    requires shell.Valid()
    requires |envs| == |specs| && forall k :: 0 <= k < |specs| ==> Complete(envs[k], ReadSpec(specs[k], k).timeoutSeconds)
    requires i < |specs| && |replies| == i && |aliveBefore| == i
    requires t == Tallied(specs, replies, stopOnError) && !t.stopped && texts == LineTexts(t.lines)
    requires forall k :: 0 <= k < i ==>
      replies[k] == EntryReply(shell, ReadSpec(specs[k], k), envs[k], aliveBefore[k])
    modifies shell
    ensures shell.Valid()
    ensures t' == Tallied(specs, replies + [reply], stopOnError) && texts' == LineTexts(t'.lines)
    ensures forall k :: 0 <= k < i + 1 ==>
      (replies + [reply])[k] == EntryReply(shell, ReadSpec(specs[k], k), envs[k], (aliveBefore + [alive])[k])
  {
    var e := ReadSpec(specs[i], i);
    reply, alive := RunEntry(shell, e, envs[i]);
    EntryRepliesExtend(shell, specs, envs, replies, aliveBefore, reply, alive);
    t', texts' := RecordStep(t, texts, e, reply, stopOnError);
    assert (replies + [reply])[..i] == replies;
  }

  /** The loop of `run_commands_batch` over one live session. */
  method RunBatch(shell: Shell, specs: seq<CommandSpec>, stopOnError: bool, envs: seq<RunEnv>)
    returns (result: string, ghost replies: seq<string>, ghost aliveBefore: seq<bool>)
    requires shell.Valid()
    requires |envs| == |specs| && forall i :: 0 <= i < |specs| ==> Complete(envs[i], ReadSpec(specs[i], i).timeoutSeconds)
    modifies shell
    ensures shell.Valid()
    ensures |replies| <= |specs| && |aliveBefore| == |replies|
    ensures |replies| < |specs| ==> Tallied(specs, replies, stopOnError).stopped
    ensures Tallied(specs, replies, stopOnError).stopped ==>
      |replies| > 0 && !Tallied(specs, replies[..|replies| - 1], stopOnError).stopped
    ensures forall k :: 0 <= k < |replies| ==>
      replies[k] == EntryReply(shell, ReadSpec(specs[k], k), envs[k], aliveBefore[k])
    ensures result == BatchText(|specs|, Tallied(specs, replies, stopOnError))
  {
    var t := Tally([], 0, 0, false);
    var texts: seq<string> := [];
    replies, aliveBefore := [], [];
    ghost var earlier: seq<string> := [];
    var i := 0;
    while i < |specs| && !t.stopped
      invariant 0 <= i <= |specs| && |replies| == i && |aliveBefore| == i
      invariant t == Tallied(specs, replies, stopOnError)
      invariant i > 0 ==> |earlier| == i - 1 && replies == earlier + [replies[i - 1]]
      invariant i > 0 ==> !Tallied(specs, earlier, stopOnError).stopped
      invariant texts == LineTexts(t.lines)
      invariant shell.Valid()
      invariant forall k :: 0 <= k < i ==>
        replies[k] == EntryReply(shell, ReadSpec(specs[k], k), envs[k], aliveBefore[k])
    {
      var reply;
      ghost var alive;
      t, texts, reply, alive := BatchStep(shell, specs, stopOnError, envs, i, t, texts, replies, aliveBefore);
      earlier := replies;
      replies, aliveBefore := replies + [reply], aliveBefore + [alive];
      i := i + 1;
    }
    StoppedAtLast(specs, stopOnError, earlier, replies);
    result := Summary(|specs|, t) + "\n\n" + Join(texts, "\n\n");
  }

  /** The listing built line by line. */
  method BuildShellsListing(n: nat, ids: seq<string>, statuses: seq<ShellStatus>) returns (r: string)
    requires |ids| == |statuses|
    ensures r == ShellsListing(n, ids, statuses)
  {
    if n == 0 {
      return NoShells;
    }
    var lines := [ShellsHeader(n), ""];
    var i := 0;
    while i < |ids|
      invariant 0 <= i <= |ids|
      invariant lines == [ShellsHeader(n), ""] + ShellRows(ids[..i], statuses[..i])
    {
      ShellRowsAppend(ids, statuses, i);
      lines := lines + [ShellRow(ids[i], statuses[i])];
      i := i + 1;
    }
    assert ids[..i] == ids && statuses[..i] == statuses;
    r := Unlines(lines);
  }

  /** The rows of `list_shells`, one per session in registry order. */
  function ShellRows(ids: seq<string>, statuses: seq<ShellStatus>): (r: seq<string>)
    requires |ids| == |statuses|
    ensures |r| == |ids|
  {
    seq(|ids|, k requires 0 <= k < |ids| => ShellRow(ids[k], statuses[k]))
  }

  /** NO_SHELLS for an empty registry, otherwise the count and a row per session. */
  function ShellsListing(n: nat, ids: seq<string>, statuses: seq<ShellStatus>): string
    requires |ids| == |statuses|
  {
    if n == 0 then NoShells else Unlines([ShellsHeader(n), ""] + ShellRows(ids, statuses))
  }

  /** The listing says NO_SHELLS exactly when there are none, and otherwise opens with
      their number. */
  lemma ShellsListingStatus(n: nat, ids: seq<string>, statuses: seq<ShellStatus>)
    requires |ids| == |statuses|
    ensures ShellsListing(n, ids, statuses) == NoShells <==> n == 0
    ensures n != 0 ==> StartsWith(ShellsListing(n, ids, statuses), ShellsHeader(n) + "\n")
  {
    if n != 0 {
      var parts := [ShellsHeader(n), ""] + ShellRows(ids, statuses);
      if |parts| >= 3 {
        JoinHead(parts, "\n");
      } else {
        assert parts == [ShellsHeader(n), ""];
        assert Join(parts, "\n") == ShellsHeader(n) + "\n" + Join([""], "\n");
      }
      var r := ShellsListing(n, ids, statuses);
      var p := ShellsHeader(n) + "\n";
      assert r[8] == p[8] == 'F';
      assert NoShells[8] == 'N';
    }
  }

  lemma ShellRowsAppend(ids: seq<string>, statuses: seq<ShellStatus>, i: nat)
    requires |ids| == |statuses| && i < |ids|
    ensures ShellRows(ids[..i + 1], statuses[..i + 1]) == ShellRows(ids[..i], statuses[..i]) + [ShellRow(ids[i], statuses[i])]
  {
    var a := ShellRows(ids[..i + 1], statuses[..i + 1]);
    var b := ShellRows(ids[..i], statuses[..i]) + [ShellRow(ids[i], statuses[i])];
    forall k | 0 <= k < |a| ensures a[k] == b[k] {
      assert ids[..i + 1][k] == ids[k] && statuses[..i + 1][k] == statuses[k];
    }
  }

  // ---------------------------------------------------------------------------
  // Job listing

  const NoJobs := "STATUS: NO_JOBS\nNo background jobs."

  function JobsHeader(n: nat): string {
    "STATUS: FOUND_" + NatToString(n) + "_JOB(S)"
  }

  /** One job: its id, the first 50 characters of its command and its age. */
  function JobRow(id: string, job: BackgroundJob, now: int): string {
    "  " + id + ": " + Prefix(job.command, 50) + "... (" + Seconds1(now - job.startTime) + "s ago)"
  }

  /** The rows of `list_background_jobs`, one per job id in `ids`. */
  function JobRows(jobs: map<string, BackgroundJob>, ids: seq<string>, now: int): (r: seq<string>)
    requires forall k :: 0 <= k < |ids| ==> ids[k] in jobs
    ensures |r| == |ids|
  {
    seq(|ids|, k requires 0 <= k < |ids| => JobRow(ids[k], jobs[ids[k]], now))
  }

  /** NO_JOBS for an empty job table, otherwise the count and a row per job. */
  function JobsListing(jobs: map<string, BackgroundJob>, ids: seq<string>, now: int): string
    requires forall k :: 0 <= k < |ids| ==> ids[k] in jobs
  {
    if |jobs| == 0 then NoJobs else Unlines([JobsHeader(|jobs|), ""] + JobRows(jobs, ids, now))
  }

  /** A header line followed by a blank line opens the text with that header. */
  lemma HeaderFirst(header: string, rows: seq<string>)
    ensures StartsWith(Unlines([header, ""] + rows), header + "\n")
  {
    var parts := [header, ""] + rows;
    if |parts| >= 3 {
      JoinHead(parts, "\n");
    } else {
      assert parts == [header, ""];
      assert Join(parts, "\n") == header + "\n" + Join([""], "\n");
    }
  }

  /** The job listing says NO_JOBS exactly when there are none, and otherwise opens
      with their number; there is one row per listed id, naming that job. */
  lemma JobsListingStatus(jobs: map<string, BackgroundJob>, ids: seq<string>, now: int)
    requires forall k :: 0 <= k < |ids| ==> ids[k] in jobs
    ensures JobsListing(jobs, ids, now) == NoJobs <==> jobs == map[]
    ensures jobs != map[] ==> StartsWith(JobsListing(jobs, ids, now), JobsHeader(|jobs|) + "\n")
    ensures forall k :: 0 <= k < |ids| ==>
      StartsWith(JobRows(jobs, ids, now)[k], "  " + ids[k] + ": " + Prefix(jobs[ids[k]].command, 50))
  {
    if jobs != map[] {
      var x :| x in jobs;
      assert |jobs| != 0;
      HeaderFirst(JobsHeader(|jobs|), JobRows(jobs, ids, now));
      var r := JobsListing(jobs, ids, now);
      var p := JobsHeader(|jobs|) + "\n";
      assert r[8] == p[8] == 'F';
      assert NoJobs[8] == 'N';
    }
    forall k | 0 <= k < |ids|
      ensures StartsWith(JobRows(jobs, ids, now)[k], "  " + ids[k] + ": " + Prefix(jobs[ids[k]].command, 50))
    {
      var head := "  " + ids[k] + ": " + Prefix(jobs[ids[k]].command, 50);
      var row := JobRows(jobs, ids, now)[k];
      assert row == head + "... (" + Seconds1(now - jobs[ids[k]].startTime) + "s ago)";
      assert row[..|head|] == head;
    }
  }

  lemma JobRowsAppend(jobs: map<string, BackgroundJob>, ids: seq<string>, now: int, i: nat)
    requires (forall k :: 0 <= k < |ids| ==> ids[k] in jobs) && i < |ids|
    ensures JobRows(jobs, ids[..i + 1], now) == JobRows(jobs, ids[..i], now) + [JobRow(ids[i], jobs[ids[i]], now)]
  {
    var a := JobRows(jobs, ids[..i + 1], now);
    var b := JobRows(jobs, ids[..i], now) + [JobRow(ids[i], jobs[ids[i]], now)];
    forall k | 0 <= k < |a| ensures a[k] == b[k] {
      assert ids[..i + 1][k] == ids[k];
    }
  }

  /** The job listing built line by line. */
  method BuildJobsListing(jobs: map<string, BackgroundJob>, ids: seq<string>, now: int) returns (r: string)
    requires forall k :: 0 <= k < |ids| ==> ids[k] in jobs
    ensures r == JobsListing(jobs, ids, now)
  {
    if |jobs| == 0 {
      return NoJobs;
    }
    var lines := [JobsHeader(|jobs|), ""];
    var i := 0;
    while i < |ids|
      invariant 0 <= i <= |ids|
      invariant lines == [JobsHeader(|jobs|), ""] + JobRows(jobs, ids[..i], now)
    {
      JobRowsAppend(jobs, ids, now, i);
      lines := lines + [JobRow(ids[i], jobs[ids[i]], now)];
      i := i + 1;
    }
    TakeAll(ids, i);
    r := Unlines(lines);
  }

  // ---------------------------------------------------------------------------
  // The manager

  class ShellManager {
    var shells: map<string, Shell>
    var order: seq<string>
    var jobs: map<string, BackgroundJob>

    /** Every registered session is stored under its own id and is well formed, and
        the insertion order lists each id once. */
    ghost predicate Valid()
      reads this, shells.Values
    {
      && (forall id :: id in shells <==> id in order)
      && Distinct(order)
      && (forall id :: id in shells ==> shells[id].shellId == id && shells[id].Valid())
    }

    constructor ()
      ensures shells == map[] && order == [] && jobs == map[]
      ensures Valid()
    {
      shells := map[];
      order := [];
      jobs := map[];
    }

    /** The session an id names, as a frame. */
    ghost function Slot(id: string): set<object>
      reads this
    {
      if id in shells then {shells[id]} else {}
    }

    /** `start_shell`. The type is parsed, the device must be in state "device", and a
        new session under a fresh id is connected; it is registered exactly when its
        connect text says CONNECTED or ALREADY_CONNECTED, and that text is returned
        either way. */
    method StartShell(serial: string, typeName: string, probe: StateProbe, hex: string,
                      script: ConnectScript, now: int)
      returns (result: string, ghost session: Shell?)
      requires Valid()
      modifies this
      ensures Valid() && jobs == old(jobs)
      ensures StateRefusal(serial, probe).Some? ==>
        result == StateRefusal(serial, probe).value && shells == old(shells) && order == old(order)
      ensures StateRefusal(serial, probe).None? ==>
        && session != null && fresh(session)
        && session.shellId == ShellIdOf(serial, ParseShellType(typeName), hex)
        && session.deviceSerial == serial && session.shellType == ParseShellType(typeName)
        && result == session.ConnectText(script)
        && (Registers(result) ==>
              shells == old(shells)[session.shellId := session] && order == AddId(old(order), session.shellId))
        && (!Registers(result) ==> shells == old(shells) && order == old(order))
      ensures StateRefusal(serial, probe).None? && Connects(ParseShellType(typeName), script) ==>
        Registers(result) && session.isConnected && session.processOpen && session.lastActivity == now
      ensures StateRefusal(serial, probe).None? && !Connects(ParseShellType(typeName), script) ==>
        StartsWith(result, "STATUS: ERROR\n") && !session.isConnected && !session.processOpen
    {
      var stype := ParseShellType(typeName);
      var refusal := StateRefusal(serial, probe);
      if refusal.Some? {
        return refusal.value, null;
      }
      var shell;
      shell, result := OpenSession(ShellIdOf(serial, stype, hex), serial, stype, script, now);
      session := shell;
      if Registers(result) {
        Register(shell);
      }
    }

    /** Stores a session under its id; an id already present keeps its place. */
    method Register(shell: Shell)
      requires Valid() && shell.Valid()
      modifies this
      ensures Valid()
      ensures shells == old(shells)[shell.shellId := shell] && order == AddId(old(order), shell.shellId)
      ensures jobs == old(jobs)
    {
      shells := shells[shell.shellId := shell];
      order := AddId(order, shell.shellId);
    }

    /** `stop_shell`: an unknown id changes nothing; otherwise exactly that id leaves the
        registry and its session is disconnected. Jobs are kept. */
    method StopShell(id: string) returns (result: string)
      requires Valid()
      modifies this, Slot(id)
      ensures Valid() && jobs == old(jobs)
      ensures id !in old(shells) ==>
        result == ErrorReply("Shell", id, StopNotFound) && shells == old(shells) && order == old(order)
      ensures id in old(shells) ==>
        && shells == old(shells) - {id} && order == Without(old(order), id)
        && result == "STATUS: DISCONNECTED\nShell: " + id
        && !old(shells)[id].isConnected && !old(shells)[id].processOpen
    {
      if id !in shells {
        return ErrorReply("Shell", id, StopNotFound);
      }
      var shell := shells[id];
      shells := shells - {id};
      order := Without(order, id);
      result := shell.Disconnect();
    }

    /** `stop_all`: every session is disconnected, both maps are emptied, and the reply
        counts the sessions there were. */
    method StopAll() returns (result: string)
      requires Valid()
      modifies this, shells.Values
      ensures Valid()
      ensures shells == map[] && order == [] && jobs == map[]
      ensures result == StoppedText(|old(shells)|)
      ensures forall s :: s in old(shells).Values ==> !s.isConnected && !s.processOpen
    {
      var count := |shells|;
      var i := 0;
      while i < |order|
        invariant 0 <= i <= |order|
        invariant shells == old(shells) && order == old(order) && jobs == old(jobs)
        invariant forall j :: 0 <= j < |order| ==> order[j] in shells
        invariant forall j :: 0 <= j < i ==> !shells[order[j]].isConnected && !shells[order[j]].processOpen
      {
        var shell := shells[order[i]];
        var _ := shell.Disconnect();
        i := i + 1;
      }
      forall s | s in shells.Values
        ensures !s.isConnected && !s.processOpen
      {
        var id :| id in shells && shells[id] == s;
        var j :| 0 <= j < |order| && order[j] == id;
      }
      shells := map[];
      order := [];
      jobs := map[];
      result := StoppedText(count);
    }

    /** A command run in the registered session `id`, which is the only object that
        changes. */
    method Ask(id: string, command: string, timeoutSeconds: int, env: RunEnv) returns (reply: string)
      requires Valid() && id in shells && Complete(env, timeoutSeconds)
      modifies shells[id]
      ensures unchanged(this) && Valid()
      ensures reply == Answer(shells[id], command, timeoutSeconds, env, old(shells[id].IsAlive(env.alive)))
      ensures shells[id].processOpen == old(shells[id].processOpen)
    {
      reply := AnswerIn(shells[id], command, timeoutSeconds, env);
      forall k | k in shells
        ensures shells[k].shellId == k && shells[k].Valid()
      {
      }
    }

    /** `run_in_shell`: the reply of the named session for the command, prefixed with
        `cd` when a working directory is given. The registry is not changed. */
    method RunInShell(id: string, command: string, timeoutSeconds: int, workingDirectory: string, env: RunEnv)
      returns (result: string)
      requires Valid()
      requires id in shells ==> Complete(env, timeoutSeconds)
      modifies Slot(id)
      ensures Valid()
      ensures id !in shells ==> result == ErrorReply("Shell", id, RunNotFound)
      ensures id in shells ==>
        result == Answer(shells[id], InDirectory(command, workingDirectory), timeoutSeconds, env,
                         old(shells[id].IsAlive(env.alive)))
    {
      if id !in shells {
        return ErrorReply("Shell", id, RunNotFound);
      }
      result := Ask(id, InDirectory(command, workingDirectory), timeoutSeconds, env);
    }

    /** `run_commands_batch`. An unknown or dead session is refused; otherwise the
        entries run in order until the end or, under stop-on-error, until the first
        failure, and the reply is the rendering of the tally over the replies. Each
        reply is the session's reply for that entry, given whether the session was
        alive just before it. */
    method RunCommandsBatch(id: string, specs: seq<CommandSpec>, stopOnError: bool, alive: bool, envs: seq<RunEnv>)
      returns (result: string, ghost replies: seq<string>, ghost aliveBefore: seq<bool>)
      requires Valid()
      requires id in shells ==>
        |envs| == |specs| && forall i :: 0 <= i < |specs| ==> Complete(envs[i], ReadSpec(specs[i], i).timeoutSeconds)
      modifies Slot(id)
      ensures Valid()
      ensures id !in shells ==> result == ErrorReply("Shell", id, NotFound)
      ensures id in shells && !old(shells[id].IsAlive(alive)) ==> result == ErrorReply("Shell", id, NotConnectedReason)
      ensures id in shells && old(shells[id].IsAlive(alive)) ==>
        && |replies| <= |specs| && |aliveBefore| == |replies|
        && (|replies| < |specs| ==> Tallied(specs, replies, stopOnError).stopped)
        && (forall k :: 0 <= k < |replies| ==>
              replies[k] == EntryReply(shells[id], ReadSpec(specs[k], k), envs[k], aliveBefore[k]))
        && result == BatchText(|specs|, Tallied(specs, replies, stopOnError))
      ensures id in shells && old(shells[id].IsAlive(alive)) ==>
        Tallied(specs, replies, stopOnError).stopped ==>
          |replies| > 0 && !Tallied(specs, replies[..|replies| - 1], stopOnError).stopped
    {
      if id !in shells {
        return ErrorReply("Shell", id, NotFound), [], [];
      }
      var shell := shells[id];
      if !shell.IsAlive(alive) {
        return ErrorReply("Shell", id, NotConnectedReason), [], [];
      }
      result, replies, aliveBefore := RunBatch(shell, specs, stopOnError, envs);
      forall k | k in shells
        ensures shells[k].shellId == k && shells[k].Valid()
      {
      }
    }

    /** `run_background`. An unknown or dead session is refused; otherwise the detached
        command runs with a 10-second timeout and the job is kept exactly when the
        reply reports success or completion. */
    method RunBackground(id: string, command: string, hex: string, env: RunEnv, now: int)
      returns (result: string, reply: string)
      requires Valid()
      requires id in shells ==> Complete(env, 10)
      modifies this`jobs, Slot(id)
      ensures Valid()
      ensures id !in old(shells) ==> result == ErrorReply("Shell", id, NotFound) && jobs == old(jobs)
      ensures id in old(shells) && !old(shells[id].IsAlive(env.alive)) ==>
        result == ErrorReply("Shell", id, NotConnectedReason) && jobs == old(jobs)
      ensures id in old(shells) && old(shells[id].IsAlive(env.alive)) ==>
        && reply == Answer(old(shells)[id], BackgroundCommand(command, JobIdOf(hex)), 10, env, true)
        && (jobs, result) == LaunchEffect(old(jobs), JobIdOf(hex), id, command, now, reply)
    {
      if id !in shells {
        return ErrorReply("Shell", id, NotFound), "";
      }
      var shell := shells[id];
      if !shell.IsAlive(env.alive) {
        return ErrorReply("Shell", id, NotConnectedReason), "";
      }
      var jobId := JobIdOf(hex);
      reply := Ask(id, BackgroundCommand(command, jobId), 10, env);
      result := LaunchText(jobId, id, command, reply);
      if Launched(reply) {
        AddJob(BackgroundJob(jobId, command, id, now));
      }
    }

    /** Stores a job under its id. */
    method AddJob(job: BackgroundJob)
      requires Valid()
      modifies this`jobs
      ensures Valid() && jobs == old(jobs)[job.jobId := job]
    {
      jobs := jobs[job.jobId := job];
    }

    /** The session a job runs in, as a frame. */
    ghost function JobSlot(jobId: string): set<object>
      reads this
    {
      if jobId in jobs && jobs[jobId].shellId in shells then {shells[jobs[jobId].shellId]} else {}
    }

    /** `check_background_job`: an unknown job, or a job whose session is gone, is an
        error; otherwise the job's file is read and the process list probed, and the
        report is RUNNING exactly when the probe does not mention COMPLETED. */
    method CheckBackgroundJob(jobId: string, catEnv: RunEnv, psEnv: RunEnv, now: int)
      returns (result: string, output: string, probe: string, ghost aliveAfter: bool)
      requires Valid()
      requires jobId in jobs && jobs[jobId].shellId in shells ==> Complete(catEnv, 10) && Complete(psEnv, 5)
      modifies JobSlot(jobId)
      ensures Valid()
      ensures jobId !in jobs ==> result == ErrorReply("Job", jobId, "Job not found.")
      ensures jobId in jobs && jobs[jobId].shellId !in shells ==>
        result == ErrorReply("Job", jobId, "Shell " + jobs[jobId].shellId + " no longer exists.")
      ensures jobId in jobs && jobs[jobId].shellId in shells ==>
        var shell := shells[jobs[jobId].shellId];
        && output == Answer(shell, CatCommand(jobId), 10, catEnv, old(shell.IsAlive(catEnv.alive)))
        && probe == Answer(shell, PsCommand(jobId), 5, psEnv, aliveAfter)
        && result == JobReport(jobId, jobs[jobId], output, probe, now)
    {
      if jobId !in jobs {
        return ErrorReply("Job", jobId, "Job not found."), "", "", false;
      }
      var job := jobs[jobId];
      if job.shellId !in shells {
        return ErrorReply("Job", jobId, "Shell " + job.shellId + " no longer exists."), "", "", false;
      }
      output := Ask(job.shellId, CatCommand(jobId), 10, catEnv);
      aliveAfter := shells[job.shellId].IsAlive(psEnv.alive);
      probe := Ask(job.shellId, PsCommand(jobId), 5, psEnv);
      result := JobReport(jobId, job, output, probe, now);
    }

    /** The status of each session, in registry order. */
    function Statuses(probes: seq<(bool, bool)>, now: int): (r: seq<ShellStatus>)
      requires Valid() && |probes| == |order|
      reads this, shells.Values
      ensures |r| == |order|
    {
      var ids, m := order, shells;
      seq(|ids|, k requires 0 <= k < |ids| && ids[k] in m reads m.Values =>
        m[ids[k]].GetStatus(probes[k].0, probes[k].1, now))
    }

    /** `list_shells`, given for each session (in registry order) whether its process is
        alive and whether it answers the ping. */
    method ListShells(probes: seq<(bool, bool)>, now: int) returns (result: string)
      requires Valid() && |probes| == |order|
      ensures result == ShellsListing(|shells|, order, Statuses(probes, now))
    {
      result := BuildShellsListing(|shells|, order, Statuses(probes, now));
    }

    /** `list_background_jobs`, given the job table's iteration order: every job id
        once. */
    method ListBackgroundJobs(ids: seq<string>, now: int) returns (result: string)
      requires Distinct(ids) && forall x :: x in ids <==> x in jobs
      ensures result == JobsListing(jobs, ids, now)
    {
      result := BuildJobsListing(jobs, ids, now);
    }

    /** `get_shell_status`. */
    function GetShellStatus(id: string, alive: bool, answered: bool, now: int): (r: string)
      reads this, Slot(id)
      ensures id !in shells ==> r == ErrorReply("Shell", id, NotFound)
      ensures id in shells ==> StartsWith(r, "STATUS: INFO\nShell: " + id + "\n")
    {
      if id !in shells then ErrorReply("Shell", id, NotFound)
      else InfoText(id, shells[id].GetStatus(alive, answered, now))
    }
  }
}
