/**
 * The text side of `list_all_devices`: the stdout of `adb devices -l` and of
 * `fastboot devices -l` parsed into `DeviceInfo` records, and the listing built
 * from them. The two subprocess calls are inputs; `None` stands for a call that
 * raised, which the manager swallows.
 */
module Devices {
  import opened Wrappers
  import opened Text
  import opened Models

  // ---------------------------------------------------------------------------
  // One `adb devices -l` row

  /** The mode for the state column of an adb row; fastboot never comes from adb. */
  function ModeOf(state: string): (m: DeviceMode)
    ensures m == Adb <==> state == "device"
    ensures m == Unauthorized <==> state == "unauthorized"
    ensures m == Offline <==> state == "offline"
    ensures m == Recovery <==> state == "recovery"
    ensures m == Sideload <==> state == "sideload"
    ensures m != Fastboot
  {
    if state == "device" then Adb
    else if state == "unauthorized" then Unauthorized
    else if state == "offline" then Offline
    else if state == "recovery" then Recovery
    else if state == "sideload" then Sideload
    else Unknown
  }

  /** `part.split(':', 1)` for a part holding a colon: the key is everything before
      the first colon and the value everything after it. */
  function SplitAttr(part: string): (kv: (string, string))
    requires ':' in part
    ensures kv.0 + ":" + kv.1 == part
    ensures ':' !in kv.0
  {
    var i := FirstColon(part);
    assert part == part[..i] + ":" + part[i + 1..];
    (part[..i], part[i + 1..])
  }

  function FirstColon(s: string): (i: nat)
    requires ':' in s
    ensures i < |s| && s[i] == ':' && ':' !in s[..i]
  {
    if s[0] == ':' then 0
    else
      var j := FirstColon(s[1..]);
      assert s[..j + 1] == [s[0]] + s[1..][..j];
      j + 1
  }

  /** The effect of one `key:val` part on a record; a part without a colon, or with a
      key other than the four known ones, changes nothing. */
  function WithAttr(info: DeviceInfo, part: string): DeviceInfo {
    if ':' in part then
      var (key, val) := SplitAttr(part);
      if key == "product" then info.(product := Some(val))
      else if key == "model" then info.(model := Some(val))
      else if key == "device" then info.(device := Some(val))
      else if key == "transport_id" then info.(transportId := Some(val))
      else info
    else info
  }

  /** The parts applied left to right. */
  function Attributes(info: DeviceInfo, parts: seq<string>): DeviceInfo {
    if parts == [] then info
    else WithAttr(Attributes(info, parts[..|parts| - 1]), parts[|parts| - 1])
  }

  /** The value of the last part whose key is `key`, if any. */
  function LastValue(parts: seq<string>, key: string): Option<string> {
    if parts == [] then None
    else
      var p := parts[|parts| - 1];
      if ':' in p && SplitAttr(p).0 == key then Some(SplitAttr(p).1)
      else LastValue(parts[..|parts| - 1], key)
  }

  function OrElse(o: Option<string>, d: Option<string>): Option<string> {
    if o.Some? then o else d
  }

  /** Each optional field ends up holding the value of its key's last part, and the
      serial and mode are never touched. */
  lemma {:induction false} AttributesFields(info: DeviceInfo, parts: seq<string>)
    ensures Attributes(info, parts).serial == info.serial
    ensures Attributes(info, parts).mode == info.mode
    ensures Attributes(info, parts).product == OrElse(LastValue(parts, "product"), info.product)
    ensures Attributes(info, parts).model == OrElse(LastValue(parts, "model"), info.model)
    ensures Attributes(info, parts).device == OrElse(LastValue(parts, "device"), info.device)
    ensures Attributes(info, parts).transportId == OrElse(LastValue(parts, "transport_id"), info.transportId)
  {
    if parts != [] {
      AttributesFields(info, parts[..|parts| - 1]);
    }
  }

  /** The loop over `parts[2:]` that fills in the optional fields. */
  method ParseAttributes(info0: DeviceInfo, parts: seq<string>) returns (info: DeviceInfo)
    ensures info == Attributes(info0, parts)
  {
    info := info0;
    var i := 0;
    while i < |parts|
      invariant 0 <= i <= |parts|
      invariant info == Attributes(info0, parts[..i])
    {
      PrefixOfPrefix(parts, i);
      info := WithAttr(info, parts[i]);
      i := i + 1;
    }
    TakeAll(parts, i);
  }

  /** A fresh record for a serial and mode. */
  function Bare(serial: string, mode: DeviceMode): DeviceInfo {
    DeviceInfo(serial, mode, None, None, None, None)
  }

  /** The record for one line after the header: blank lines and lines of fewer than
      two words give none. */
  function AdbRecord(line: string): Option<DeviceInfo> {
    if IsBlank(line) then None
    else
      var parts := Words(line);
      if |parts| >= 2 then Some(Attributes(Bare(parts[0], ModeOf(parts[1])), parts[2..]))
      else None
  }

  /** The records for the lines after the header, in line order. */
  function AdbDevices(lines: seq<string>): seq<DeviceInfo> {
    if lines == [] then []
    else
      AdbDevices(lines[..|lines| - 1])
      + match AdbRecord(lines[|lines| - 1]) case Some(d) => [d] case None => []
  }

  /** The lines of `adb devices -l` that are read: the stripped output split at
      newlines, without its first (header) line. */
  function AdbRows(stdout: string): seq<string> {
    Lines(Strip(stdout))[1..]
  }

  /** A device is listed for a row exactly when the row has at least two words. */
  predicate Listed(line: string) {
    |Words(line)| >= 2
  }

  /** Serial and mode are never touched by the attributes. */
  lemma {:induction false} AttributesKeep(info: DeviceInfo, parts: seq<string>)
    ensures Attributes(info, parts).serial == info.serial
    ensures Attributes(info, parts).mode == info.mode
  {
    if parts != [] {
      AttributesKeep(info, parts[..|parts| - 1]);
    }
  }

  /** The number of rows of two or more words. */
  function CountListed(lines: seq<string>): nat {
    if lines == [] then 0
    else CountListed(lines[..|lines| - 1]) + if Listed(lines[|lines| - 1]) then 1 else 0
  }

  /** One record per row of two or more words. */
  lemma {:induction false} AdbDevicesCount(lines: seq<string>)
    ensures |AdbDevices(lines)| == CountListed(lines)
  {
    if lines != [] {
      AdbDevicesCount(lines[..|lines| - 1]);
      WordsEmpty(lines[|lines| - 1]);
    }
  }

  /** Every record comes from a row of two or more words: its serial is the row's
      first word and its mode the mode for the second. */
  lemma {:induction false} AdbDevicesFromRows(lines: seq<string>)
    ensures forall d :: d in AdbDevices(lines) ==>
      exists k :: 0 <= k < |lines| && Listed(lines[k])
        && d.serial == Words(lines[k])[0] && d.mode == ModeOf(Words(lines[k])[1])
  {
    if lines != [] {
      var init := lines[..|lines| - 1];
      var last := lines[|lines| - 1];
      AdbDevicesFromRows(init);
      forall d | d in AdbDevices(lines)
        ensures (exists k :: 0 <= k < |lines| && Listed(lines[k])
                   && d.serial == Words(lines[k])[0] && d.mode == ModeOf(Words(lines[k])[1]))
      {
        if d in AdbDevices(init) {
          var k :| 0 <= k < |init| && Listed(init[k])
            && d.serial == Words(init[k])[0] && d.mode == ModeOf(Words(init[k])[1]);
          assert lines[k] == init[k];
        } else {
          var ws := Words(last);
          AttributesKeep(Bare(ws[0], ModeOf(ws[1])), ws[2..]);
          assert lines[|lines| - 1] == last;
        }
      }
    }
  }

  /** The records of one more row: those of the rows before it, then its own. */
  lemma AdbDevicesStep(rows: seq<string>, i: nat)
    requires i < |rows|
    ensures AdbDevices(rows[..i + 1])
      == AdbDevices(rows[..i]) + match AdbRecord(rows[i]) case Some(d) => [d] case None => []
  {
    PrefixOfPrefix(rows, i);
  }

  /** The body of the adb loop for one row: blank rows and rows of fewer than two
      words are skipped. */
  method AdbRow(line: string) returns (record: Option<DeviceInfo>)
    ensures record == AdbRecord(line)
  {
    if IsBlank(line) {
      return None;
    }
    var parts := Words(line);
    if |parts| < 2 {
      return None;
    }
    var info := ParseAttributes(Bare(parts[0], ModeOf(parts[1])), parts[2..]);
    return Some(info);
  }

  /** The adb records of `adb devices -l` output. */
  method ParseAdb(stdout: string) returns (devices: seq<DeviceInfo>)
    ensures devices == AdbDevices(AdbRows(stdout))
  {
    devices := ScanAdbRows(AdbRows(stdout));
  }

  /** The loop over the adb rows. */
  method ScanAdbRows(rows: seq<string>) returns (devices: seq<DeviceInfo>)
    ensures devices == AdbDevices(rows)
  {
    devices := [];
    var i := 0;
    while i < |rows|
      invariant 0 <= i <= |rows|
      invariant devices == AdbDevices(rows[..i])
    {
      AdbDevicesStep(rows, i);
      var record := AdbRow(rows[i]);
      if record.Some? {
        devices := devices + [record.value];
      }
      i := i + 1;
    }
    TakeAll(rows, i);
  }

  // ---------------------------------------------------------------------------
  // `fastboot devices -l`

  /** The serial a fastboot line offers: its first word, when its second is "fastboot". */
  function FastbootSerial(line: string): Option<string> {
    if IsBlank(line) then None
    else
      var parts := Words(line);
      if |parts| >= 2 && parts[1] == "fastboot" then Some(parts[0]) else None
  }

  predicate HasSerial(devices: seq<DeviceInfo>, serial: string) {
    exists k :: 0 <= k < |devices| && devices[k].serial == serial
  }

  /** The fastboot lines folded onto the adb records: a serial already listed is
      skipped. */
  function FastbootMerge(devices: seq<DeviceInfo>, lines: seq<string>): seq<DeviceInfo> {
    if lines == [] then devices
    else
      var prev := FastbootMerge(devices, lines[..|lines| - 1]);
      match FastbootSerial(lines[|lines| - 1])
      case Some(s) => if HasSerial(prev, s) then prev else prev + [Bare(s, Fastboot)]
      case None => prev
  }

  /** The merge over one more line: the merge over the lines before it, then that
      line's serial when it offers one not yet listed. */
  lemma FastbootMergeStep(devices: seq<DeviceInfo>, lines: seq<string>, i: nat)
    requires i < |lines|
    ensures var prev := FastbootMerge(devices, lines[..i]);
      FastbootMerge(devices, lines[..i + 1])
      == match FastbootSerial(lines[i])
         case Some(s) => if HasSerial(prev, s) then prev else prev + [Bare(s, Fastboot)]
         case None => prev
  {
    PrefixOfPrefix(lines, i);
  }

  predicate DistinctSerials(devices: seq<DeviceInfo>) {
    forall i, j :: 0 <= i < j < |devices| ==> devices[i].serial != devices[j].serial
  }

  /** The merge keeps the records it started from, in place, and only appends fastboot
      records; every serial a fastboot line offers is listed afterwards; and when the
      serials it started from were distinct they stay distinct. */
  lemma {:induction false} MergeSpec(devices: seq<DeviceInfo>, lines: seq<string>)
    ensures var all := FastbootMerge(devices, lines);
      && |devices| <= |all|
      && all[..|devices|] == devices
      && (forall k :: |devices| <= k < |all| ==> all[k].mode == Fastboot)
      && (forall k :: 0 <= k < |lines| && FastbootSerial(lines[k]).Some? ==>
            HasSerial(all, FastbootSerial(lines[k]).value))
      && (DistinctSerials(devices) ==> DistinctSerials(all))
  {
    if lines != [] {
      var init := lines[..|lines| - 1];
      MergeSpec(devices, init);
      var prev := FastbootMerge(devices, init);
      var all := FastbootMerge(devices, lines);
      assert forall k :: 0 <= k < |init| ==> init[k] == lines[k];
      match FastbootSerial(lines[|lines| - 1])
      case Some(s) =>
        if !HasSerial(prev, s) {
          assert all == prev + [Bare(s, Fastboot)];
          assert all[..|devices|] == prev[..|devices|];
          assert all[|prev|].serial == s;
          forall k | 0 <= k < |init| && FastbootSerial(init[k]).Some?
            ensures HasSerial(all, FastbootSerial(init[k]).value)
          {
            var j :| 0 <= j < |prev| && prev[j].serial == FastbootSerial(init[k]).value;
            assert all[j] == prev[j];
          }
        }
      case None =>
    }
  }

  /** The loop over the fastboot lines, with `any(...)` for the serial check. */
  method MergeFastboot(devices0: seq<DeviceInfo>, stdout: string) returns (devices: seq<DeviceInfo>)
    ensures devices == FastbootMerge(devices0, Lines(Strip(stdout)))
  {
    devices := ScanFastbootRows(devices0, Lines(Strip(stdout)));
  }

  /** The loop over the fastboot rows. */
  method ScanFastbootRows(devices0: seq<DeviceInfo>, rows: seq<string>) returns (devices: seq<DeviceInfo>)
    ensures devices == FastbootMerge(devices0, rows)
  {
    devices := devices0;
    var i := 0;
    while i < |rows|
      invariant 0 <= i <= |rows|
      invariant devices == FastbootMerge(devices0, rows[..i])
    {
      FastbootMergeStep(devices0, rows, i);
      var line := rows[i];
      if !IsBlank(line) {
        var parts := Words(line);
        if |parts| >= 2 && parts[1] == "fastboot" {
          var serial := parts[0];
          assert FastbootSerial(line) == Some(serial);
          var listed := exists k :: 0 <= k < |devices| && devices[k].serial == serial;
          if !listed {
            devices := devices + [Bare(serial, Fastboot)];
          }
        } else {
          assert FastbootSerial(line).None?;
        }
      } else {
        assert FastbootSerial(line).None?;
      }
      i := i + 1;
    }
    TakeAll(rows, i);
  }

  // ---------------------------------------------------------------------------
  // The listing

  /** The devices found, adb first; a call that raised contributes nothing. */
  function AllDevices(adbOut: Option<string>, fastbootOut: Option<string>): seq<DeviceInfo> {
    var adb := if adbOut.Some? then AdbDevices(AdbRows(adbOut.value)) else [];
    if fastbootOut.Some? then FastbootMerge(adb, Lines(Strip(fastbootOut.value))) else adb
  }

  /** `d.mode.value.upper()`. */
  function ModeLabel(m: DeviceMode): string {
    match m
    case Adb => "ADB"
    case Fastboot => "FASTBOOT"
    case Recovery => "RECOVERY"
    case Sideload => "SIDELOAD"
    case Offline => "OFFLINE"
    case Unauthorized => "UNAUTHORIZED"
    case Unknown => "UNKNOWN"
  }

  /** ` (model)` when the model is non-empty. */
  function ModelNote(model: Option<string>): string {
    if model.Some? && model.value != "" then " (" + model.value + ")" else ""
  }

  /** The hint for a device that cannot be used yet. */
  function Hint(m: DeviceMode): string {
    if m == Unauthorized then " - Accept USB debugging prompt on device"
    else if m == Offline then " - Reconnect device"
    else ""
  }

  /** The row for one device: serial and mode, the model when it is non-empty, and a
      hint for an unauthorized or offline device. */
  function DeviceLine(d: DeviceInfo): string {
    "  " + d.serial + ": " + ModeLabel(d.mode) + ModelNote(d.model) + Hint(d.mode)
  }

  /** One row per device, in order. */
  function Rows(devices: seq<DeviceInfo>): (rows: seq<string>)
    ensures |rows| == |devices|
  {
    seq(|devices|, k requires 0 <= k < |devices| => DeviceLine(devices[k]))
  }

  lemma RowAt(devices: seq<DeviceInfo>, k: nat)
    requires k < |devices|
    ensures Rows(devices)[k] == DeviceLine(devices[k])
  {
  }

  const NoDevices: string :=
    "STATUS: NO_DEVICES\n" + "No devices found in ADB or fastboot mode.\n"
    + "Action: Connect device and enable USB debugging, or boot to bootloader for fastboot."

  function FoundHeader(n: nat): string {
    "STATUS: FOUND_" + NatToString(n) + "_DEVICE(S)"
  }

  /** The whole listing: the count, a blank line, then the rows. */
  function Listing(devices: seq<DeviceInfo>): string {
    if devices == [] then NoDevices else Unlines([FoundHeader(|devices|), ""] + Rows(devices))
  }

  /** No newline in the text of a record, so its row is one line. */
  predicate OneLine(d: DeviceInfo) {
    '\n' !in d.serial && (d.model.Some? ==> '\n' !in d.model.value)
  }

  lemma NoNewlineJoin(a: string, b: string)
    requires '\n' !in a && '\n' !in b
    ensures '\n' !in a + b
  {
  }

  lemma DeviceLineOneLine(d: DeviceInfo)
    requires OneLine(d)
    ensures '\n' !in DeviceLine(d)
  {
    var modeText := ModeLabel(d.mode);
    var note := ModelNote(d.model);
    var hint := Hint(d.mode);
    assert '\n' !in modeText;
    assert '\n' !in note;
    assert '\n' !in hint;
    NoNewlineJoin("  " + d.serial, ": ");
    NoNewlineJoin("  " + d.serial + ": ", modeText);
    NoNewlineJoin("  " + d.serial + ": " + modeText, note);
    NoNewlineJoin("  " + d.serial + ": " + modeText + note, hint);
  }

  /** A found-list with one-line records splits back into exactly its header, the blank
      line and one row per device. */
  lemma ListingSplits(devices: seq<DeviceInfo>)
    requires devices != [] && forall k :: 0 <= k < |devices| ==> OneLine(devices[k])
    ensures Lines(Listing(devices)) == [FoundHeader(|devices|), ""] + Rows(devices)
  {
    var ls := [FoundHeader(|devices|), ""] + Rows(devices);
    assert '\n' !in FoundHeader(|devices|);
    forall k | 0 <= k < |ls| ensures '\n' !in ls[k] {
      if k >= 2 {
        RowAt(devices, k - 2);
        DeviceLineOneLine(devices[k - 2]);
      }
    }
    SplitJoin(ls, '\n');
  }

  /** A word holds no newline, so every parsed record is one line. */
  lemma {:induction false} ParsedOneLine(adbOut: Option<string>, fastbootOut: Option<string>)
    ensures forall k :: 0 <= k < |AllDevices(adbOut, fastbootOut)| ==> OneLine(AllDevices(adbOut, fastbootOut)[k])
  {
    var adb := if adbOut.Some? then AdbDevices(AdbRows(adbOut.value)) else [];
    if adbOut.Some? {
      AdbOneLine(AdbRows(adbOut.value));
    }
    if fastbootOut.Some? {
      MergeOneLine(adb, Lines(Strip(fastbootOut.value)));
    }
  }

  lemma {:induction false} AdbOneLine(lines: seq<string>)
    ensures forall k :: 0 <= k < |AdbDevices(lines)| ==> OneLine(AdbDevices(lines)[k])
  {
    if lines != [] {
      var init := lines[..|lines| - 1];
      var last := lines[|lines| - 1];
      AdbOneLine(init);
      if AdbRecord(last).Some? {
        var ws := Words(last);
        var d := AdbRecord(last).value;
        AttributesFields(Bare(ws[0], ModeOf(ws[1])), ws[2..]);
        assert NoSpace(ws[0]) && IsSpace('\n');
        LastValueOneLine(ws[2..], "model");
        assert AdbDevices(lines) == AdbDevices(init) + [d];
      }
    }
  }

  /** A value taken from a word holds no newline. */
  lemma {:induction false} LastValueOneLine(parts: seq<string>, key: string)
    requires forall k :: 0 <= k < |parts| ==> NoSpace(parts[k])
    ensures LastValue(parts, key).Some? ==> '\n' !in LastValue(parts, key).value
  {
    if parts != [] {
      var p := parts[|parts| - 1];
      LastValueOneLine(parts[..|parts| - 1], key);
      if ':' in p && SplitAttr(p).0 == key {
        var (k, v) := SplitAttr(p);
        assert p == k + ":" + v;
        assert IsSpace('\n');
        forall j | 0 <= j < |v| ensures v[j] != '\n' {
          assert v[j] == p[|k| + 1 + j];
        }
      }
    }
  }

  lemma {:induction false} MergeOneLine(devices: seq<DeviceInfo>, lines: seq<string>)
    requires forall k :: 0 <= k < |devices| ==> OneLine(devices[k])
    ensures forall k :: 0 <= k < |FastbootMerge(devices, lines)| ==> OneLine(FastbootMerge(devices, lines)[k])
  {
    if lines != [] {
      MergeOneLine(devices, lines[..|lines| - 1]);
      var s := FastbootSerial(lines[|lines| - 1]);
      if s.Some? {
        assert NoSpace(Words(lines[|lines| - 1])[0]) && IsSpace('\n');
      }
    }
  }

  /** Adding a device adds its row at the end. */
  lemma RowsAppend(devices: seq<DeviceInfo>, i: nat)
    requires i < |devices|
    ensures Rows(devices[..i + 1]) == Rows(devices[..i]) + [DeviceLine(devices[i])]
  {
    var a := Rows(devices[..i + 1]);
    var b := Rows(devices[..i]) + [DeviceLine(devices[i])];
    forall k | 0 <= k < |a| ensures a[k] == b[k] {
      assert devices[..i + 1][k] == devices[k];
    }
  }

  /** The listing built line by line. */
  method BuildListing(devices: seq<DeviceInfo>) returns (r: string)
    ensures r == Listing(devices)
  {
    if devices == [] {
      return NoDevices;
    }
    var lines := [FoundHeader(|devices|), ""];
    var i := 0;
    while i < |devices|
      invariant 0 <= i <= |devices|
      invariant lines == [FoundHeader(|devices|), ""] + Rows(devices[..i])
    {
      RowsAppend(devices, i);
      lines := lines + [DeviceLine(devices[i])];
      i := i + 1;
    }
    TakeAll(devices, i);
    r := Unlines(lines);
  }

  /** `list_all_devices` after the subprocess calls: parse the adb rows, merge the
      fastboot rows, then build the listing. */
  method ListAllDevices(adbOut: Option<string>, fastbootOut: Option<string>) returns (r: string)
    ensures r == Listing(AllDevices(adbOut, fastbootOut))
  {
    var devices: seq<DeviceInfo> := [];
    if adbOut.Some? {
      devices := ParseAdb(adbOut.value);
    }
    if fastbootOut.Some? {
      devices := MergeFastboot(devices, fastbootOut.value);
    }
    r := BuildListing(devices);
  }

  /** The listing says NO_DEVICES exactly when nothing was found, and otherwise opens
      with the count on a line of its own. */
  lemma ListingStatus(devices: seq<DeviceInfo>)
    ensures devices == [] <==> Listing(devices) == NoDevices
    ensures devices != [] ==> StartsWith(Listing(devices), FoundHeader(|devices|) + "\n")
  {
    if devices != [] {
      var h := FoundHeader(|devices|);
      var rest := Unlines(([h, ""] + Rows(devices))[1..]);
      assert Listing(devices) == h + "\n" + rest;
      assert (h + "\n" + rest)[..|h + "\n"|] == h + "\n";
      assert Listing(devices)[8] == 'F';
      assert NoDevices[8] == 'N';
    }
  }
}
