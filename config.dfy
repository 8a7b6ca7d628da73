/**
 * The static heuristic tables and thresholds of core/config.py, transcribed as
 * constants. Times are integer milliseconds.
 */
module Config {
  import opened Patterns

  /** Prefix of the per-call END marker. */
  const MarkerPrefix: string := "___MCP_MARKER___"

  /** Prefix (and, doubled, the frame) of the per-call exit-code marker. */
  const ExitPrefix: string := "__EXIT_"

  /** Pause between two reads of the poll loop: 0.5 s. */
  const ProgressCheckIntervalMs: nat := 500

  /** Consecutive empty polls before a command is considered stuck. */
  const StuckThresholdIntervals: nat := 4

  /** Factor applied to the stuck threshold for slow/silent commands. */
  const SlowCommandTimeoutMultiplier: nat := 10

  /** Minimum elapsed and quiet time before the stuck check applies: 5.0 s. */
  const MinTimeBeforeStuckCheckMs: nat := 5000

  /** Programs that are interactive or blocking by nature. */
  const DangerousCommands: seq<string> := [
    "vi", "vim", "nano", "emacs",
    "top", "htop",
    "less", "more",
    "ssh", "telnet",
    "python", "python3", "node",
    "sh", "bash", "zsh",
    "adb shell",
    "su",
    "passwd",
    "read",
    "cat"
  ]

  /** Dangerous programs that are harmless once they are given an argument. */
  const ArgumentTakers: seq<string> := ["cat", "python", "python3", "node"]

  /** Dangerous sub-shells that are harmless with a `-c` flag. */
  const DashCShells: seq<string> := ["sh", "bash", "zsh"]

  /** Programs known to run silently for a long time while working. */
  const SlowSilentCommands: seq<string> := [
    "wget", "curl", "aria2c", "axel",
    "scp", "rsync", "sftp", "ftp",
    "cp", "mv", "dd", "tar", "gzip", "gunzip", "bzip2", "xz",
    "zip", "unzip", "7z", "7za",
    "apt", "apt-get", "dpkg", "yum", "dnf", "pacman",
    "pip", "pip3", "npm", "yarn", "gem",
    "pm",
    "am", "cmd",
    "dex2oat",
    "installd",
    "mkfs", "fsck", "e2fsck", "resize2fs",
    "fdisk", "parted", "gdisk",
    "make", "cmake", "ninja", "gradle", "gradlew",
    "gcc", "g++", "clang", "javac",
    "sqlite3", "mysql", "pg_dump", "mongodump",
    "sha256sum", "sha512sum", "md5sum", "openssl",
    "gpg", "age",
    "find", "locate", "grep", "rg", "ag",
    "sync", "reboot", "shutdown",
    "mount", "umount",
    "adb",
    "sleep", "wait"
  ]

  /** Text in a command line that suggests a long-running operation. */
  const SlowCommandPatterns: seq<Pattern> := [
    Pattern(@">\s*/dev/null", Spaced([">", "/dev/null"])),
    Pattern(@"2>&1\s*>\s*/dev/null", Spaced(["2>&1", ">", "/dev/null"])),
    Pattern("--quiet", Literal("--quiet")),
    Pattern("-q", Literal("-q")),
    Pattern("--silent", Literal("--silent")),
    Pattern("-s", Literal("-s")),
    Pattern("--no-progress", Literal("--no-progress")),
    Pattern(@"\|\s*tail", Spaced(["|", "tail"])),
    Pattern(@"\|\s*head", Spaced(["|", "head"])),
    Pattern(@"\|\s*grep", Spaced(["|", "grep"])),
    Pattern(@"\|\s*awk", Spaced(["|", "awk"])),
    Pattern(@"\|\s*sed", Spaced(["|", "sed"])),
    Pattern("install", Literal("install")),
    Pattern("download", Literal("download")),
    Pattern("backup", Literal("backup")),
    Pattern("restore", Literal("restore")),
    Pattern("flash", Literal("flash")),
    Pattern("update", Literal("update")),
    Pattern("upgrade", Literal("upgrade")),
    Pattern("pull", Literal("pull")),
    Pattern("push", Literal("push")),
    Pattern("copy", Literal("copy")),
    Pattern("clone", Literal("clone"))
  ]

  /** Flags, as whole words, that mark a recursive operation. */
  const RecursiveFlags: seq<string> := ["-r", "-R", "--recursive", "-rf", "-Rf"]

  /** Paths, anywhere in the command text, that usually hold a lot of data. */
  const LargePaths: seq<string> := ["/data", "/system", "/sdcard", "/storage", "/mnt"]

  /** Output endings that mean the remote program is waiting for input. */
  const InteractivePromptPatterns: seq<Pattern> := [
    Pattern(@"\[y/n\]\s*:?\s*$", AtLineEnd("[y/n]", true)),
    Pattern(@"\[Y/n\]\s*:?\s*$", AtLineEnd("[y/n]", true)),
    Pattern(@"\[yes/no\]\s*:?\s*$", AtLineEnd("[yes/no]", true)),
    Pattern(@"\(y/n\)\s*:?\s*$", AtLineEnd("(y/n)", true)),
    Pattern(@"y/n\)?\s*:?\s*$", YesNoAtLineEnd),
    Pattern(@"[Pp]assword\s*:?\s*$", AtLineEnd("password", true)),
    Pattern(@"[Pp]assphrase\s*:?\s*$", AtLineEnd("passphrase", true)),
    Pattern(@"Enter\s+.*:\s*$", EnterColon),
    Pattern(@"Press\s+.*to\s+continue", PressToContinue),
    Pattern("--More--", Literal("--more--")),
    Pattern(@":\s*$", AtLineEnd(":", false)),
    Pattern(@"\?\s*$", AtLineEnd("?", false)),
    Pattern(@"Continue\?\s*", Literal("continue?")),
    Pattern(@"Overwrite\?\s*", Literal("overwrite?")),
    Pattern(@"confirm\s*[\(\[]", OneOf(Spaced(["confirm", "("]), Spaced(["confirm", "["]))),
    Pattern("Are you sure", Literal("are you sure")),
    Pattern(@"\(END\)", Literal("(end)")),
    Pattern(@"~\s*$", AtLineEnd("~", false))
  ]

  /** The narrow prompt set still checked while a slow/silent command runs
      (core/shell.py keeps this list inside run_command). */
  const SpecificPromptPatterns: seq<Pattern> := [
    Pattern(@"\[y/n\]", Literal("[y/n]")),
    Pattern(@"\[Y/n\]", Literal("[y/n]")),
    Pattern(@"\(y/n\)", Literal("(y/n)")),
    Pattern(@"[Pp]assword\s*:", Spaced(["password", ":"])),
    Pattern(@"[Pp]assphrase\s*:", Spaced(["passphrase", ":"])),
    Pattern("Are you sure", Literal("are you sure")),
    Pattern(@"Overwrite\?", Literal("overwrite?"))
  ]
}
