# android-root shell manager, modelled in Dafny

This project models the core of a tool server that keeps interactive root and
non-root shells open on Android devices over adb and runs commands in them. The
model covers four parts:

- **One shell session** (`Shell` in core/shell.py). This covers connecting, the `su`
  escalation and disconnecting. It covers running a command: the dangerous-command
  advisory, the slow/silent verdict, the progress-monitoring poll loop with its
  stuck and prompt detection, the four-stage interrupt recovery, and the cleanup of
  the captured output into a `SHELL:`/`STATUS:`/`EXIT_CODE:`/`OUTPUT:` report. It
  also covers the session's status.
- **The session registry** (`ShellManager` in core/manager.py). This covers shell
  ids, starting a shell, stopping one or all, and running a command. It covers the
  batch runner with its tally and stop-on-error rule, background jobs (start, check
  and list), and the shell listing and shell status. It also covers the parsing of
  `adb devices -l` and `fastboot devices -l` output into the device listing.
- **The output filters of the tool layer** (tools/handlers.py):
  - `_filter_output`: a grep filter, head/tail truncation, header lines that always
    survive, and a note placed before the last header line;
  - `_filter_batch_output` and `_truncate_section`.
- **The argument and action checks of the tools** (tools/handlers.py). These decide
  which manager operation a call reaches, or which `STATUS: ERROR` text it gets
  instead.

Each stateful entity of the source is a class: the session is `Sessions.Shell` and
the registry is `Pool.ShellManager`. Their methods carry `modifies` clauses and state
their new state. Each is proved against pure specification functions, and the
lemmas are stated about those functions. The poll loop, the recovery sequence, the
output cleanup, the batch loop, the device parsing and the filters are loops in the
source. They are written as `while` loops proved equal to the recursive
specification functions.

The outside world is a set of parameters:

- **pexpect:** its spawn, expect, read and send calls become a connect script, a
  poll trace, ping answers and probe outcomes.
- **Clocks:** integer milliseconds.
- **uuid suffixes:** hex strings.
- **subprocess calls:** their captured standard output.

Regular expressions are matched by hand-written matchers over the ASCII-lower-cased
text.

## Model

| member | source | states |
|---|---|---|
| Classify.ScanDangerousSpec | core/shell.py:170-185 | the scan over the dangerous-command table warns exactly when the first word is listed and none of the exemptions (an argument for cat/python/python3/node, `-c` for sh/bash/zsh/su) applies, and the warning names that word |
| Classify.DangerousSpec | core/shell.py:161-185 | `_check_dangerous_command` warns iff the command has a first word that is in the table and not exempt; a blank command never warns |
| Classify.AdbShellNeverMatches | core/shell.py:166-174 | the two-word table entry "adb shell" can never equal a single whitespace-free first word, so it never fires |
| Classify.FirstContained | core/shell.py:213-217 | the first table entry contained in the text, or none of them is contained |
| Classify.IsSlowSilentCommand | core/shell.py:187-219 | a command judged slow always comes with a reason, a fast one with the empty reason |
| Classify.SlowSpec | core/shell.py:187-219 | a command is slow iff its first word is a slow program, or a slow pattern matches case-insensitively, or a recursive flag is a word, or a large path occurs |
| Classify.SlowPrecedence | core/shell.py:199-206 | the slow-program test wins and names the program; otherwise the first matching slow pattern is named |
| Classify.LargePathIsSlow | core/shell.py:213-217 | a command that mentions one of /data, /system, /sdcard, /storage, /mnt is slow |
| Classify.PromptWindowLines | core/shell.py:227-231 | the prompt search looks at most at the last three lines of the stripped output |
| Classify.LastLinesHaveNoBreak | core/shell.py:227-231 | the last lines taken from newline-free lines hold no newline |
| Classify.DetectInteractivePrompt | core/shell.py:221-237 | a prompt is reported iff some prompt pattern matches the window, and the one reported is the first in table order |
| Classify.DetectSpecificPrompt | core/shell.py:469-478 | for slow commands only the specific prompt table is searched: a prompt is reported iff a row matches the window, and it is the pattern of the first matching row in list order (no earlier row matches) |
| Patterns.FirstMatch | core/config.py:20-40 | the index of the first table row whose matcher accepts the text, with no earlier row matching; none means no row matches |
| Polling.OnOutput | core/shell.py:444-485 | new bytes reset the silence counter and quiet clock; the loop ends with the END marker exactly when the output holds it; otherwise it ends with a prompt exactly when the table for the command's speed (generic for fast, specific for slow) detects one, and the exit names the detected pattern |
| Polling.OnSilence | core/shell.py:486-523 | a silent poll ends the loop as stuck exactly when the command is fast and has reached the counter threshold and is past the minimum elapsed and quiet time; a slow command meeting its own thresholds restarts the counter at zero; below the thresholds the counter goes up by one |
| Polling.PollOnce | core/shell.py:426-523 | one iteration of the loop body computes exactly the step function |
| Polling.PollLoop | core/shell.py:426-523 | the while loop over a poll trace ends with the exit the recursive specification gives |
| Polling.DeadlineBeforeRead | core/shell.py:427-439 | once the deadline has passed, the loop times out with the output gathered so far, whatever the poll holds |
| Polling.BytesResetCounter | core/shell.py:444-447 | output that does not end the loop resets the silence counter to zero and stamps the quiet clock |
| Polling.MarkerBeforePrompt | core/shell.py:449-451 | when the accumulated output holds the END marker the loop ends with it, before prompt detection |
| Polling.SlowThresholds | core/shell.py:418-424 | slow commands wait 10 times more silent polls (40) and three times the minimum time (15 s) |
| Polling.DecidedByDeadline | core/shell.py:426-430 | a trace that reaches the deadline is decided by the time it gets there, so the loop always ends |
| Polling.SlowNeverStalls | core/shell.py:495-499 | a slow command is never reported as stuck |
| Polling.StallNeedsSilence | core/shell.py:486-503 | a stuck verdict needs a fast command, more than 5 s elapsed and more than 5 s quiet, and the polls leading up to it, counted with the silent polls before the trace, reach the threshold of four with no output |
| Polling.PromptTables | core/shell.py:456-485 | every prompt exit names a pattern of the table that belongs to the command's speed |
| Polling.StepAppends | core/shell.py:444-445 | a step only appends to the accumulated output, and an END-marker exit holds the marker |
| Polling.OutputPreserved | core/shell.py:411-451 | the output of any loop exit extends the output it started from |
| Recovery.FirstRecoveredFrom | core/shell.py:317-370 | the first stage at or after a point whose ping was answered, or none was |
| Recovery.MultiStageInterrupt | core/shell.py:317-370 | the recovery loop gives the message and the number of stages started that the specification gives |
| Recovery.FailedIffNoProbeAnswered | core/shell.py:365-370 | the message says "Recovery FAILED" iff no stage's ping was answered |
| Recovery.StopsAtFirstRecovery | core/shell.py:332-366 | the sequence stops at the first answered ping, and the message lists the stages sent up to it |
| Recovery.LabelsInOrder | core/shell.py:325-354 | when every send went through, the labels are Ctrl+C, Ctrl+D, Ctrl+Z + kill, in that order |
| Recovery.LabelsBound | core/shell.py:323-359 | there are never more labels than stages started or than the three stage labels, and no label at all when every send failed |
| Cleanup.CrToLf | core/shell.py:526 | every carriage return becomes a line feed, and nothing else changes |
| Cleanup.NormalizeIdempotent | core/shell.py:526 | line-ending normalisation applied twice is applied once |
| Cleanup.CrLfToLfIdentity | core/shell.py:526 | text without carriage returns is left as it is |
| Cleanup.CutAtMarker | core/shell.py:529-531 | the cut is a prefix of the text and holds no END marker; text without the marker is kept whole |
| Cleanup.CutIgnoresTail | core/shell.py:529-531 | whatever follows the first marker has no effect on the cut |
| Cleanup.CutSharedPrefix | core/shell.py:529-531 | two texts that agree up to the end of the first marker are cut alike |
| Cleanup.CutAt | core/shell.py:529-531 | the cut is the text before the first occurrence of the marker |
| Cleanup.Span | core/shell.py:535-559 | a greedy character-class run stays inside the text, holds only class characters and stops at a non-class one |
| Cleanup.FirstFrame | core/shell.py:535 | the first position of an exit-code frame, with no frame before it; none means none exists |
| Cleanup.FrameCodeIs | core/shell.py:535-537 | the code read from a frame is the value of its digits |
| Cleanup.ExitCodeAbsent | core/shell.py:534-537 | no exit code is found iff no position starts a frame |
| Cleanup.ExitCodeOfFrame | core/shell.py:406-537 | the frame that the wrapped command echoes after the command's own output reads back as the exit status it carries, whenever no exit marker begins inside that output |
| Cleanup.ExitCodeAfter | core/shell.py:530-537 | the first frame of the text, found after a prefix in which no marker begins, gives the value of its digits |
| Cleanup.FirstFrameAt | core/shell.py:530-533 | the frame search returns a position exactly when a frame starts there and none starts before it |
| Cleanup.NoFrameBefore | core/shell.py:530-533 | no frame can start inside a prefix in which no exit marker begins |
| Cleanup.SpanOfDigits | core/shell.py:535 | the digit run of a frame is exactly its digits |
| Cleanup.EraseNothing | core/shell.py:538-559 | an eraser that matches nowhere leaves the text unchanged |
| Cleanup.Erasers | core/shell.py:538-559 | the substitutions applied to a finished run: six, or seven when the command is longer than 20 characters |
| Cleanup.EraseAll | core/shell.py:538-559 | the substitutions never lengthen the text |
| Cleanup.DropTrailingBlank | core/shell.py:580-582 | trailing empty lines are popped: the result is a prefix, it does not end empty, and only empty lines were dropped |
| Cleanup.KeepClean | core/shell.py:562-578 | every kept line is stripped, holds no newline, no marker and is no prompt line; the first kept line is not empty |
| Cleanup.CleanedLinesShape | core/shell.py:562-584 | the cleaned lines are clean and neither the first nor the last is empty |
| Cleanup.DropKeepsShape | core/shell.py:580-582 | popping trailing empty lines keeps the lines clean and leaves a non-empty last line |
| Cleanup.CleanLines | core/shell.py:562-582 | the cleanup loop computes the specification's kept lines |
| Cleanup.Unframe | core/shell.py:536-538 | without an exit frame the text is left as it is |
| Cleanup.PostProcessOutput | core/shell.py:526-584 | the post-processing steps in source order compute the exit code and cleaned lines of the specification |
| Cleanup.ExitCodeBeforeMarker | core/shell.py:529-537 | restates the definition that the exit code is read from the text cut before the END marker; the only derived fact is that the cut text holds no END marker |
| Cleanup.PostProcessShape | core/shell.py:526-584 | every output line of a finished run is clean, and the output neither starts nor ends with an empty line |
| Cleanup.ReportStatus | core/shell.py:587-602 | the report says SUCCESS iff exit code 0, COMMAND_FAILED iff a non-zero code and COMPLETED with an unknown code iff none was found; "OUTPUT:" comes next to last and then the output or "(no output)" |
| Sessions.Reply | core/shell.py:386-606 | every reply opens with its status line, which the callers' contracts (`Format`, `ConnectTextStatus`, `StartShell`) use to tell the reply kinds apart |
| Sessions.RefusalOrder | core/shell.py:385-399 | an empty command is refused first, then a dead session, then one that does not answer the ping; otherwise the command is sent |
| Sessions.OutcomeOfExit | core/shell.py:426-523 | a command that was sent ends as the loop exit concludes it |
| Sessions.LoopDecided | core/shell.py:426-430 | in an environment whose trace reaches the deadline, the loop never runs out of polls |
| Sessions.ConclusionKinds | core/shell.py:430-602 | stuck iff stalled, finished iff the END marker arrived (with the post-processed output), prompted iff a prompt was seen (with its pattern), never refused |
| Sessions.SlowNeverUncertain | core/shell.py:495-499 | a slow command never ends UNCERTAIN |
| Sessions.UncertainNeedsQuiet | core/shell.py:491-503 | an UNCERTAIN outcome needs a fast command with more than 5 s elapsed and 5 s without output |
| Sessions.PromptVerdicts | core/shell.py:456-485 | a generic prompt verdict only for a fast command and a specific one only for a slow one, each naming a pattern of its table |
| Sessions.FinishedLinesClean | core/shell.py:561-584 | the output lines of a finished command are clean and trimmed of empty lines at both ends |
| Sessions.Shell.constructor | core/shell.py:29-37 | a new session is disconnected, has no process, and has never been active |
| Sessions.Shell.IsAlive | core/shell.py:143-147 | alive only when connected, with a process, and the process is alive |
| Sessions.Shell.ErrorText | core/shell.py:65-114 | the session's error texts are the ERROR reply about this shell: they open with "STATUS: ERROR\nShell: <id>\nReason: " |
| Sessions.ErrorReply | core/manager.py:381-386 | every ERROR reply about a named shell, job or device opens with the status line, the subject line and "Reason: ", followed by the reason |
| Sessions.Shell.ConnectedText | core/shell.py:107 | the connected text opens with STATUS: CONNECTED |
| Sessions.Shell.ConnectTextStatus | core/shell.py:39-114 | connect reports CONNECTED iff a prompt appeared and, for a root shell, `su` gave a root prompt and `id` showed uid 0; every other path reports STATUS: ERROR |
| Sessions.Shell.ForceClose | core/shell.py:116-124 | the process is dropped and the session is no longer connected |
| Sessions.Shell.Connect | core/shell.py:39-114 | a live session answers ALREADY_CONNECTED and is not respawned; otherwise one spawn per attempt, connected with a fresh activity stamp exactly on success and closed on every failure |
| Sessions.Shell.Disconnect | core/shell.py:126-141 | the session is closed and the DISCONNECTED text names it |
| Sessions.Shell.GetStatus | core/shell.py:610-619 | connected exactly when the flag is set and the process is open and alive; responsive exactly when connected and the ping is answered; no idle time exactly when never active, and otherwise the time since the last activity |
| Sessions.Shell.Format | core/shell.py:384-602 | the reply opens with ERROR, TIMEOUT, WAITING_FOR_INPUT or UNCERTAIN as the outcome says; a finished run opens with the shell line and the status line of its exit code |
| Sessions.Shell.Conclude | core/shell.py:430-602 | the outcome is the conclusion of the loop exit; activity is stamped only when the END marker arrived |
| Sessions.Shell.Await | core/shell.py:409-602 | the loop and its conclusion give the specified outcome |
| Sessions.Shell.Deliver | core/shell.py:401-608 | the wrapped command is sent once; an EOF on sending disconnects the session, while any other exception leaves the connection flag as it was |
| Sessions.Shell.SendFaultReplies | core/shell.py:604-608 | an exception while sending gives the ERROR reply about this shell: "Shell connection lost." with its action for EOF, the exception's own text for any other |
| Sessions.Shell.Execute | core/shell.py:384-608 | a refused command sends nothing and changes nothing; otherwise exactly the wrapped command is sent and the outcome is the specified one |
| Sessions.Shell.RunCommand | core/shell.py:372-608 | the reply is the rendering of the specified outcome, and the session changes as `Execute` states |
| Devices.ModeOf | core/manager.py:49-59 | each adb state word maps to its mode, every other word to UNKNOWN, and never to FASTBOOT |
| Devices.SplitAttr | core/manager.py:65-66 | an attribute splits at its first colon: the key holds no colon and key, colon and value give the part back |
| Devices.FirstColon | core/manager.py:66 | the position of the first colon |
| Devices.AttributesFields | core/manager.py:63-74 | each optional field holds the value of its key's last part (or keeps its old value), and serial and mode are untouched |
| Devices.ParseAttributes | core/manager.py:64-74 | the attribute loop computes the specification |
| Devices.AdbDevicesCount | core/manager.py:41-76 | one record per line after the header that has at least two words |
| Devices.AdbDevicesFromRows | core/manager.py:41-61 | every record comes from a listed line, with that line's first word as serial and the mode of its second |
| Devices.ParseAdb | core/manager.py:41 | the records are those of the lines after the header of the stripped output |
| Devices.ScanAdbRows | core/manager.py:41-76 | the loop over the rows computes the specification's records |
| Devices.AdbRow | core/manager.py:42-76 | one row gives the record of the specification: none for a blank row or one of fewer than two words |
| Devices.MergeSpec | core/manager.py:86-94 | fastboot devices are appended after the adb ones, in FASTBOOT mode; every fastboot serial ends up listed; distinct serials stay distinct |
| Devices.MergeFastboot | core/manager.py:86 | the merge is over the lines of the stripped fastboot output |
| Devices.ScanFastbootRows | core/manager.py:86-94 | the fastboot loop computes the specification's merge |
| Devices.Rows | core/manager.py:102-110 | one row per device |
| Devices.DeviceLineOneLine | core/manager.py:103-110 | a row built from newline-free fields is one line |
| Devices.ListingSplits | core/manager.py:101-112 | the lines of a non-empty listing are the count line, a blank line and one row per device |
| Devices.ParsedOneLine | core/manager.py:41-94 | every parsed device's serial and model are free of newlines |
| Devices.AdbOneLine | core/manager.py:44-74 | the adb records carry no newline in serial or model |
| Devices.LastValueOneLine | core/manager.py:64-74 | an attribute value taken from a whitespace-free part holds no newline |
| Devices.MergeOneLine | core/manager.py:86-94 | merging fastboot serials keeps every record newline-free |
| Devices.RowsAppend | core/manager.py:102-110 | the rows of a longer prefix add the next device's row |
| Devices.BuildListing | core/manager.py:98-112 | the listing loop computes the specification's text |
| Devices.ListAllDevices | core/manager.py:31-112 | the listing of the parsed adb devices merged with the fastboot ones |
| Devices.ListingStatus | core/manager.py:98-112 | NO_DEVICES iff nothing was found; otherwise the text opens with FOUND_n_DEVICE(S) for the number found |
| Batch.FirstHeader | core/manager.py:230-233 | the index of the first OUTPUT: line, or none exists |
| Batch.NonHeaders | core/manager.py:230-235 | the kept lines are lines of the reply and none is an OUTPUT: line |
| Batch.ScanSpec | core/manager.py:228-235 | the scan enters output mode iff an OUTPUT: line exists, and keeps exactly the non-header lines after the first one |
| Batch.ExtractOutput | core/manager.py:228-237 | the extraction loop gives the specified output, "(no output)" when nothing was kept |
| Batch.ScanOutput | core/manager.py:228-235 | the loop over the reply's lines keeps the specified lines |
| Batch.TallyAll | core/manager.py:199-242 | without stop-on-error nothing stops, each entry has one result line and each entry with a command is counted once, as success or failure |
| Batch.TallyLines | core/manager.py:212-241 | the k-th line is SKIPPED for an empty command and otherwise carries the entry's id and its reply |
| Batch.RecordAppends | core/manager.py:212-241 | recording an entry appends its one line |
| Batch.TallyStops | core/manager.py:243-246 | with stop-on-error at most one failure is counted, the batch stopped iff one was, and the STOPPED line comes last |
| Batch.TallyBound | core/manager.py:221-225 | successes and failures together never exceed the entries that have a command |
| Batch.Rule | core/manager.py:250 | the rule under the header is 50 `=` characters |
| Batch.LineTextsAppend | core/manager.py:241-252 | the texts of joined result lines are the joined texts |
| Batch.RecordStep | core/manager.py:199-246 | one iteration of the batch loop updates tally and texts as the specification records |
| Pool.ShellIdOf | core/manager.py:25-29 | with at least four hex digits, an id is ten characters longer than the serial's first 8 characters |
| Pool.ShellIdDecodes | core/manager.py:25-29 | equal ids have equal types, equal 8-character serial prefixes and equal first four hex digits |
| Pool.ParseShellTypeValue | core/manager.py:116-120 | parsing a type's value gives the type back, parsing ignores case, and "ROOT" and "Root" are root |
| Pool.StateRefusal | core/manager.py:122-134 | a shell is started only when the device reports state "device"; every refusal is the ERROR reply about the device |
| Pool.PidIn | core/manager.py:357-362 | a PID found is a string of digits |
| Pool.FindPid | core/manager.py:357-362 | the PID loop computes the specification |
| Pool.StartFailed | core/manager.py:375-376 | a launch that failed reports STATUS: ERROR |
| Pool.LaunchEffectSpec | core/manager.py:355-376 | a launch that succeeded records exactly the new job and reports STARTED with the job, shell and PID; a failed one leaves the jobs unchanged and reports STATUS: ERROR ending with the reply |
| Pool.LaunchText | core/manager.py:355-376 | the reply to the detached command gives the specified text |
| Pool.JobReport | core/manager.py:392-397 | RUNNING iff the process probe does not mention COMPLETED, COMPLETED iff it does |
| Pool.InfoText | core/manager.py:406-408 | the status text opens with STATUS: INFO and the shell id |
| Pool.StateLabel | core/manager.py:447 | ACTIVE iff connected and responsive, DISCONNECTED iff not connected, STALE iff connected but not responsive |
| Pool.AddId | core/manager.py:144 | after adding a key, the keys are the old ones plus it, and they stay distinct |
| Pool.Without | core/manager.py:155 | a key popped from a dict leaves the other keys, still distinct |
| Pool.OpenSession | core/manager.py:137-140 | the new session carries the id, serial and type; it is connected exactly when the connect script succeeds, and otherwise the text is an error |
| Pool.RunEntry | core/manager.py:212-218 | one batch entry is run in its directory, or skipped when its command is empty |
| Pool.RunBatch | core/manager.py:194-252 | the batch text is the tally of the replies received; fewer replies than entries only when the batch stopped; and when it stopped, it was not stopped before the last reply, so no entry runs after the one that stopped it |
| Pool.BuildShellsListing | core/manager.py:444-450 | the listing loop computes the specification |
| Pool.ShellRows | core/manager.py:445-448 | one row per session |
| Pool.ShellsListingStatus | core/manager.py:441-450 | NO_SHELLS iff there are no sessions; otherwise the text opens with FOUND_n_SHELL(S) |
| Pool.ShellRowsAppend | core/manager.py:445-448 | the rows of a longer prefix add the next session's row |
| Pool.JobRows | core/manager.py:459-461 | one row per job id |
| Pool.HeaderFirst | core/manager.py:444-458 | a listing whose header is followed by a blank line opens with that header line |
| Pool.JobsListingStatus | core/manager.py:452-463 | NO_JOBS iff there are no jobs; otherwise the text opens with FOUND_n_JOB(S), and each row names its job and the first 50 characters of its command |
| Pool.JobRowsAppend | core/manager.py:459-461 | the rows of a longer prefix add the next job's row |
| Pool.BuildJobsListing | core/manager.py:458-463 | the listing loop computes the specification |
| Pool.ShellManager.constructor | core/manager.py:20-23 | a new registry has no sessions and no jobs |
| Pool.ShellManager.StartShell | core/manager.py:114-147 | a refused device state changes nothing; otherwise a new session under the generated id is connected, and it is registered exactly when its text says CONNECTED or ALREADY_CONNECTED; the connect text is returned either way |
| Pool.ShellManager.Register | core/manager.py:143-144 | the session is stored under its id |
| Pool.ShellManager.StopShell | core/manager.py:149-156 | an unknown id is an error and changes nothing; a known one is removed, disconnected, and the DISCONNECTED text is returned |
| Pool.ShellManager.StopAll | core/manager.py:465-473 | every session is disconnected, the registry and the job table are emptied, and the text counts the sessions closed |
| Pool.ShellManager.Ask | core/manager.py:169 | the session's reply to one command, with the registry unchanged |
| Pool.ShellManager.RunInShell | core/manager.py:158-169 | an unknown id is an error; otherwise the command, prefixed with `cd dir &&` when a directory is given, is run in the session |
| Pool.ShellManager.RunCommandsBatch | core/manager.py:171-252 | an unknown id or a dead session is an error; otherwise the batch text is the tally of the replies received, and under stop-on-error no entry runs after the one that stopped the batch |
| Pool.ShellManager.RunBackground | core/manager.py:339-376 | an unknown id or a dead session is an error and adds no job; otherwise the detached command is run with a 10 s timeout and its reply decides the job table and the text |
| Pool.ShellManager.AddJob | core/manager.py:371-372 | the job is stored under its id |
| Pool.ShellManager.CheckBackgroundJob | core/manager.py:378-397 | an unknown job, or one whose shell is gone, is an error; otherwise the output file is read, the process is probed, and the report follows the probe |
| Pool.ShellManager.Statuses | core/manager.py:445-446 | one status per session in registry order |
| Pool.ShellManager.ListShells | core/manager.py:438-450 | the listing of the sessions in registry order with their statuses |
| Pool.ShellManager.ListBackgroundJobs | core/manager.py:452-463 | the listing of the job table, one row per job |
| Pool.ShellManager.GetShellStatus | core/manager.py:399-408 | an unknown id is an error; otherwise the text opens with STATUS: INFO and the id |
| Filters.Head | tools/handlers.py:99 | `s[:k]` with Python's clamping: a prefix, of length k when 0 <= k <= len, and len + k for a negative k |
| Filters.Tail | tools/handlers.py:101 | `s[-k:]`: a suffix, of length k when 0 < k <= len, and the whole sequence for k = 0 |
| Filters.KeepPicks | tools/handlers.py:93 | the kept elements are an order-preserving subsequence, and an element is kept iff it passes the test |
| Filters.KeepAll | tools/handlers.py:93 | every kept element passes the test |
| Filters.GrepSpec | tools/handlers.py:93 | the grep filter keeps exactly the lines containing the text, in order |
| Filters.SplitReply | tools/handlers.py:76-88 | the header/output split loop computes the specification's partition |
| Filters.PartitionHeaders | tools/handlers.py:79-88 | without an OUTPUT: line every line is a header; otherwise the headers are the lines up to the first OUTPUT: line and every later OUTPUT: line |
| Filters.PartitionOutputs | tools/handlers.py:79-88 | output mode is entered iff an OUTPUT: line exists, and the output lines are the non-header lines after the first one |
| Filters.TruncateSpec | tools/handlers.py:95-101 | truncation happens iff max_lines is set and there are more lines; head keeps the first lines and tail the last |
| Filters.InsertBeforeLast | tools/handlers.py:109 | `list.insert(-1, x)`: one longer, with x just before the old last element |
| Filters.FilteredLines | tools/handlers.py:76-111 | the filtered lines end with the shown output lines |
| Filters.FilterOutput | tools/handlers.py:71-111 | with neither max_lines nor grep the result is the input |
| Filters.RunFilterOutput | tools/handlers.py:71-111 | the filter computes the specification |
| Filters.ShownSpec | tools/handlers.py:90-101 | the shown lines are a subsequence of the output lines, each containing grep, at most max_lines of them, and all matches when nothing was cut |
| Filters.MatchedPicks | tools/handlers.py:92-93 | the matched lines are an order-preserving subsequence of the output lines |
| Filters.AssembleSpec | tools/handlers.py:103-111 | the note, when there is one, goes just before the last header line, and the output lines follow the headers |
| Filters.FilteredHeaders | tools/handlers.py:79-111 | every header line is kept in order, the GREP/TRUNCATED note sits just before the last one, and the shown lines follow |
| Filters.TruncateSection | tools/handlers.py:141-157 | a section of at most one line is returned as it is; otherwise its header comes first, and with max_lines set at most max_lines + 2 lines are returned |
| Filters.TruncateSectionSpec | tools/handlers.py:146-157 | the content is a grep-filtered subsequence; over-long content keeps its last max_lines lines after "... (k lines truncated)" for the k dropped |
| Filters.FilterBatchOutput | tools/handlers.py:114-117 | with neither max_lines nor grep the result is the input |
| Filters.RunFilterBatchOutput | tools/handlers.py:114-138 | the section loop computes the specification |
| Filters.ScanPassThrough | tools/handlers.py:124-136 | lines before the first section header are emitted unchanged; without a header every line is |
| Filters.ScanBeforeFirst | tools/handlers.py:130-133 | before any header the scan only emits lines |
| Filters.ScanAtFirst | tools/handlers.py:125-129 | the first header opens a section that starts with it |
| Filters.ScanAfterFirst | tools/handlers.py:124-136 | after the first header the emitted text keeps its prefix |
| Filters.ScanSections | tools/handlers.py:124-131 | a section is being collected exactly when one was opened, and it starts with its header line |
| Filters.FilteredBatchPassThrough | tools/handlers.py:114-138 | the batch filter passes every line before the first section header through unchanged, and the header itself |
| Routing.LowerIsAll | tools/handlers.py:215 | lower-casing gives "all" exactly for "all" in any letter case |
| Routing.StopShellRoute | tools/handlers.py:215-217 | stop_shell reaches either stop_all or stop_shell with the id given |
| Routing.StopShellRouteSpec | tools/handlers.py:215-216 | stop_all is chosen iff the id is absent, empty, or "all" in any case |
| Routing.ShellStatusRoute | tools/handlers.py:234-236 | all shells are listed iff no id or an empty one is given; otherwise that id's status |
| Routing.BackgroundJobRoute | tools/handlers.py:336-348 | start reaches run_background only with a shell id and a command, check reaches check_background_job only with a job id, list always lists; every refusal is STATUS: ERROR |
| Routing.BackgroundJobRefusals | tools/handlers.py:336-348 | a job call is refused iff the action is unknown or the argument it needs is missing, and an unknown action is named in the error |
| Routing.KbTenthsNearest | tools/handlers.py:380-384 | the size shown is `bytes / 1024` rounded to the nearest tenth, ties to even |
| Routing.FileTransferRoute | tools/handlers.py:373-392 | a pull always reaches the device; a push reaches it only with content of at most 1048576 UTF-8 bytes; every refusal is STATUS: ERROR |
| Routing.OversizedPush | tools/handlers.py:380-389 | a push over 1024 KB is refused before any device call, and the size it shows is at least 1024.0 KB |
| Routing.FileTransferRefusals | tools/handlers.py:373-392 | a transfer is refused iff the action is unknown, a push has no content, or the content is over the limit |
| Routing.ShellInteractRoute | tools/handlers.py:416-460 | peek and diagnose always proceed, input needs a text (an empty one counts), control needs a non-empty character; every refusal is STATUS: ERROR |
| Routing.ShellInteractRefusals | tools/handlers.py:416-460 | an interaction is refused iff the action is unknown or its required argument is missing |
| Routing.DiagnosisBlocks | tools/handlers.py:439-455 | the diagnosis shows the status and the peeked output in fixed places, and has a suggestion iff the shell is unresponsive, idle or at a prompt |
| Routing.Diagnosis | tools/handlers.py:431-457 | an error status is returned as it is; otherwise the report opens with its title |
| Routing.SuggestionPriority | tools/handlers.py:450-455 | the suggestion is for an unresponsive shell first, then for an idle one, then for a pending prompt |

## Left out

- **pexpect I/O:** spawning, `expect`, `read_nonblocking`, `sendline` and `sendcontrol` are not executed. Their effects are inputs: a connect script, poll traces, ping answers and recovery probe outcomes.
- **`peek_output`, `send_input` and `send_control`** (core/shell.py:257-315), and the manager operations that wrap them (core/manager.py:410-436), are pure pexpect I/O. Only their routing in the tools is modelled.
- **Exceptions in `run_command`:** only an exception raised while sending the wrapped command is modelled (`SendResult`). The reads of the poll loop and the recovery stages catch their own exceptions, and the rest of the `try` block does no I/O.
- **Locks:** `threading.Lock` in `Shell` and `ShellManager` is concurrency. Each operation is atomic here.
- **Clocks:** `time.time()` and `time.sleep()` become integer milliseconds passed in. `Seconds1` rounds halves up, while Python's `:.1f` on a float rounds the binary value. The two can differ on an exact half.
- **uuid suffixes:** the uuid hex suffixes of shell ids, job ids and markers are parameters.
- **subprocess calls:** the `adb`/`fastboot` calls are not modelled. Only the parsing of their captured output is. `pull_file` and `push_file` (core/manager.py:254-337) are left out: they are base64 and device-shell I/O.
- **Telemetry and server wiring:** the analytics calls in the tools, `_detect_project_cli`, `register_tools` and the tool decorators are left out.
- **Case conversion and character classes:** `str.lower()`, `str.upper()`, `\w` and `isdigit()` are modelled on ASCII only. Python's Unicode case tables and Unicode digits are not.
- **UNCERTAIN reply:** the guidance paragraph of that reply is not part of its modelled text.
- **Complete:** the command-running members assume the poll trace reaches the deadline and that there is one probe outcome per recovery stage. The source's loop always ends by its deadline.
- **shell type parse:** the `except` branch of the shell-type parse (core/manager.py:119-120) is unreachable for a string argument and is not modelled.
- **Falsy filter arguments:** an absent `max_lines` and a zero one are the same input (0), and an absent `grep` and an empty one are the same input (""). Python treats both pairs alike.
- **Regular expressions:** the regex tables of core/config.py are hand-written matchers over ASCII-lower-cased text. They are not a general regex engine.
- **Byte sizes:** the push size check assumes content sizes below 2^53 bytes, where the float quotient is exact.
- Pool.ShellManager.RunCommandsBatch: which entries ran against a live session is returned as ghost values rather than stated from the inputs.
- Pool.RunBatch: the same ghost liveness values stand in for the liveness checks of the batch loop.
- Pool.ShellManager.CheckBackgroundJob: whether the session was still alive for the process probe is a ghost value.
- Pool.ShellManager.RunBackground: the session's liveness is read from the run environment's `alive` flag, the same flag `is_alive` reads.
- Pool.ShellManager.StartShell: an id collision overwrites the old session without disconnecting it, as the source does. The model does not state what happens to the overwritten session.
- Pool.ShellManager.ListBackgroundJobs: the job table's insertion order is not tracked. The listing is proved for any order that lists every job once.
