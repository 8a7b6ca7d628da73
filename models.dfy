/** The enums and records of core/models.py. */
module Models {
  import opened Wrappers

  /** Privilege mode of a session. */
  datatype ShellType = NonRoot | Root {
    /** The enum's string value. */
    function Value(): string {
      if Root? then "root" else "non_root"
    }
  }

  /** Mode a device was listed in. */
  datatype DeviceMode = Adb | Fastboot | Recovery | Sideload | Offline | Unauthorized | Unknown {
    function Value(): string {
      match this
      case Adb => "adb"
      case Fastboot => "fastboot"
      case Recovery => "recovery"
      case Sideload => "sideload"
      case Offline => "offline"
      case Unauthorized => "unauthorized"
      case Unknown => "unknown"
    }
  }

  /** One row of a device listing; the optional fields come from `key:value` attributes. */
  datatype DeviceInfo = DeviceInfo(
    serial: string,
    mode: DeviceMode,
    product: Option<string>,
    model: Option<string>,
    device: Option<string>,
    transportId: Option<string>)

  /** A detached command; the start time is a clock reading in milliseconds. */
  datatype BackgroundJob = BackgroundJob(jobId: string, command: string, shellId: string, startTime: int)
}
