/**
 * `remount` and `remount_service`: the per-partition remount step that
 * records whether the partition is still read-only, and the service entry
 * point that gates, sequences and reports the /system and /vendor remounts.
 */
module Remount {
  import opened Wrappers
  import opened CText
  import opened MountTable
  import opened WriteProtect
  import opened Output

  const SystemDir := "/system"
  const VendorDir := "/vendor"

  /** `char buffer[200]` of `remount_service`, one byte kept for the NUL. */
  const MessageCap: nat := 199

  const SucceededLine := "remount succeeded\n"
  const FailedLine := "remount failed\n"

  /** What the operating system answers during one service call. */
  datatype Os = Os(
    mounts: Option<string>,              // read of /proc/mounts; None when it cannot be opened
    cmdline: Option<string>,             // read of /proc/cmdline; None when it cannot be opened
    secureHardware: string,              // ro.boot.secure_hardware, "" when unset
    openable: set<string>,               // devices that open read-only
    mountResult: (string, string) -> int, // mount(dev, dir, "none", MS_REMOUNT, NULL)
    errorText: string -> string,         // strerror(errno) after the remount of a directory failed
    vendorIsDir: bool)                   // lstat("/vendor") succeeds on a directory

  /** A read-only flag that `remount` writes through `int* dir_ro`. */
  class Flag {
    var value: int

    constructor (v: int)
      ensures value == v
    {
      value := v;
    }
  }

  /** The process-wide `system_ro` and `vendor_ro`, which start at 1 and
      keep their values from one service call to the next. */
  class Globals {
    const systemRo: Flag
    const vendorRo: Flag

    ghost predicate Valid()
      reads this
    {
      systemRo != vendorRo
    }

    constructor ()
      ensures Valid() && fresh(systemRo) && fresh(vendorRo)
      ensures systemRo.value == 1 && vendorRo.value == 1
    {
      systemRo := new Flag(1);
      vendorRo := new Flag(1);
    }
  }

  /** The result of `mount` when `remount(dir, …)` gets as far as calling it:
      the directory's device is in the mount table and opens. */
  function MountCall(dir: string, os: Os): Option<int>
  {
    match FindMountSpec(os.mounts, dir)
    case None => None
    case Some(dev) => if dev in os.openable then Some(os.mountResult(dev, dir)) else None
  }

  /** What `remount` returns and what the flag holds afterwards. */
  datatype Step = Step(ret: int, ro: int)

  function RemountStep(dir: string, ro: int, os: Os): Step
  {
    match MountCall(dir, os)
    case None => Step(-1, ro)
    case Some(m) => Step(m, m)
  }

  /** `remount(dir, dir_ro)` */
  method Remount(dir: string, dirRo: Flag?, os: Os) returns (r: int)
    modifies if dirRo == null then {} else {dirRo}
    ensures dirRo == null ==> r == 0
    ensures dirRo != null ==>
      r == RemountStep(dir, old(dirRo.value), os).ret && dirRo.value == RemountStep(dir, old(dirRo.value), os).ro
  {
    if dirRo == null {
      return 0;
    }
    var dev := FindMount(os.mounts, dir);
    if dev.None? {
      return -1;
    }
    if dev.value !in os.openable {
      return -1;
    }
    // ioctl(fd, BLKROSET, &OFF) is issued here; its result is not looked at
    dirRo.value := os.mountResult(dev.value, dir);
    return dirRo.value;
  }

  /** An early failure (directory not in the table, device does not open)
      returns -1 and leaves the flag as it was; otherwise the flag holds the
      mount result and that is what is returned, so 0 means writable. */
  lemma RemountStepCases(dir: string, ro: int, os: Os)
    ensures FindMountSpec(os.mounts, dir).None? ==> RemountStep(dir, ro, os) == Step(-1, ro)
    ensures FindMountSpec(os.mounts, dir).Some? && FindMountSpec(os.mounts, dir).value !in os.openable ==>
      RemountStep(dir, ro, os) == Step(-1, ro)
    ensures FindMountSpec(os.mounts, dir).Some? && FindMountSpec(os.mounts, dir).value in os.openable ==>
      var m := os.mountResult(FindMountSpec(os.mounts, dir).value, dir);
      RemountStep(dir, ro, os) == Step(m, m)
    ensures RemountStep(dir, ro, os).ret == 0 ==> RemountStep(dir, ro, os).ro == 0
  {
  }

  /** An attempt on a directory missing from the mount table never makes the
      partition writable unless it already was. */
  lemma MissingMountKeepsFlag(dir: string, ro: int, os: Os)
    requires FindMountSpec(os.mounts, dir).None?
    ensures RemountStep(dir, ro, os).ro == ro && RemountStep(dir, ro, os).ret == -1
  {
  }

  /** `snprintf(buffer, 200, "remount of %s failed: %s\n", …)` */
  function FailureLine(part: string, error: string): string
  {
    CBuffer("remount of " + part + " failed: " + error + "\n", MessageCap)
  }

  /** The verdict formula `!system_ro && (!vendor_ro || !hasVendorPartition())`. */
  predicate Succeeded(systemRo: int, vendorRo: int, hasVendor: bool)
  {
    systemRo == 0 && (vendorRo == 0 || !hasVendor)
  }

  function VerdictLine(ok: bool): string
  {
    if ok then SucceededLine else FailedLine
  }

  /** The flag after one guarded `if (remount(dir, &flag)) write failure`
      block of `remount_service`, and the lines it writes. */
  datatype Phase = Phase(ro: int, lines: seq<string>)

  function Attempt(dir: string, part: string, ro: int, os: Os): Phase
  {
    var s := RemountStep(dir, ro, os);
    Phase(s.ro, if s.ret != 0 then [FailureLine(part, os.errorText(dir))] else [])
  }

  /** The flags after a service call and the lines it writes. */
  datatype Outcome = Outcome(systemRo: int, vendorRo: int, lines: seq<string>)

  /** One call of `remount_service`, starting from the given flags. */
  function Run(systemRo: int, vendorRo: int, os: Os): Outcome
  {
    var st := Inspect(os.cmdline, os.secureHardware);
    var sys := if Verdict(st) == 0 then Attempt(SystemDir, "system", systemRo, os) else Phase(systemRo, []);
    var ven := if os.vendorIsDir then Attempt(VendorDir, "vendor", vendorRo, os) else Phase(vendorRo, []);
    Outcome(sys.ro, ven.ro, Guidance(st) + sys.lines + ven.lines + [VerdictLine(Succeeded(sys.ro, ven.ro, os.vendorIsDir))])
  }

  /** `if (remount(dir, flag)) { snprintf(…); write_string(fd, buffer); }`,
      the block `remount_service` runs for each partition it attempts. */
  method RemountReporting(fd: Sink, dir: string, part: string, flag: Flag, os: Os)
    requires !fd.closed
    modifies flag, fd
    ensures var ph := Attempt(dir, part, old(flag.value), os);
      flag.value == ph.ro && fd.lines == old(fd.lines) + ph.lines && !fd.closed
  {
    var r := Remount(dir, flag, os);
    if r != 0 {
      fd.Write(FailureLine(part, os.errorText(dir)));
    }
  }

  /** Regrouping the lines written one block at a time. */
  lemma AppendFour(a: seq<string>, b: seq<string>, c: seq<string>, d: seq<string>, e: seq<string>)
    ensures a + b + c + d + e == a + (b + c + d + e)
  {
  }

  /** `remount_service(fd, cookie)` */
  method RemountService(g: Globals, fd: Sink, os: Os)
    requires g.Valid() && !fd.closed
    modifies g.systemRo, g.vendorRo, fd
    ensures var o := Run(old(g.systemRo.value), old(g.vendorRo.value), os);
      g.systemRo.value == o.systemRo && g.vendorRo.value == o.vendorRo &&
      fd.lines == old(fd.lines) + o.lines
    ensures fd.closed
  {
    // the three blocks of the report, as Run describes them
    ghost var st := Inspect(os.cmdline, os.secureHardware);
    ghost var sys := if Verdict(st) == 0 then Attempt(SystemDir, "system", g.systemRo.value, os) else Phase(g.systemRo.value, []);
    ghost var ven := if os.vendorIsDir then Attempt(VendorDir, "vendor", g.vendorRo.value, os) else Phase(g.vendorRo.value, []);
    ghost var l0 := fd.lines;

    var check := CheckSystemIsWriteProtected(fd, os.cmdline, os.secureHardware);
    ghost var l1 := fd.lines;
    if check == 0 {
      RemountReporting(fd, SystemDir, "system", g.systemRo, os);
    }
    ghost var l2 := fd.lines;
    if os.vendorIsDir {
      RemountReporting(fd, VendorDir, "vendor", g.vendorRo, os);
    }
    ghost var l3 := fd.lines;
    ghost var v := VerdictLine(Succeeded(sys.ro, ven.ro, os.vendorIsDir));
    if g.systemRo.value == 0 && (g.vendorRo.value == 0 || !os.vendorIsDir) {
      fd.Write(SucceededLine);
    } else {
      fd.Write(FailedLine);
    }
    assert fd.lines == l3 + [v];
    assert l1 == l0 + Guidance(st) && l2 == l1 + sys.lines && l3 == l2 + ven.lines;
    AppendFour(l0, Guidance(st), sys.lines, ven.lines, [v]);
    fd.Close();
  }

  /** The failure line starts with "remount of <part> fail", whatever the
      error text is. */
  lemma FailureLinePrefix(part: string, error: string)
    requires |part| <= 100 && forall k :: 0 <= k < |part| ==> part[k] != '\0'
    ensures var p := "remount of " + part + " fail";
      |p| <= |FailureLine(part, error)| && FailureLine(part, error)[..|p|] == p
  {
    var p := "remount of " + part + " fail";
    var raw := "remount of " + part + " failed: " + error + "\n";
    assert raw[..|p|] == p;
    assert forall k :: 0 <= k < |p| ==> p[k] != '\0' by {
      assert forall k :: 11 <= k < 11 + |part| ==> p[k] == part[k - 11];
    }
    CBufferKeepsPrefix(raw, p, MessageCap);
  }

  /** A failure line is never a verdict line. */
  lemma FailureLineNotVerdict(part: string, error: string)
    requires |part| <= 100 && forall k :: 0 <= k < |part| ==> part[k] != '\0'
    ensures FailureLine(part, error) != SucceededLine && FailureLine(part, error) != FailedLine
  {
    FailureLinePrefix(part, error);
    var f := FailureLine(part, error);
    assert f[8] == 'o';
    assert SucceededLine[8] == 's' && FailedLine[8] == 'f';
  }

  /** A failure line is never one of the write-protect check's lines. */
  lemma FailureLineNotGuidance(part: string, error: string, st: Status)
    requires |part| <= 100 && forall k :: 0 <= k < |part| ==> part[k] != '\0'
    ensures FailureLine(part, error) !in Guidance(st)
  {
    FailureLinePrefix(part, error);
    var f := FailureLine(part, error);
    assert f[0] == 'r';
    assert ProtectedLine[0] == 'S' && UnknownLine[0] == 'W';
    assert UnlockLine[0] == 'f' && WptestLine[0] == 'f';
  }

  /** The two partitions' failure lines are never equal. */
  lemma FailureLinesDiffer(error: string, error': string)
    ensures FailureLine("system", error) != FailureLine("vendor", error')
  {
    FailureLinePrefix("system", error);
    FailureLinePrefix("vendor", error');
    assert FailureLine("system", error)[11] == 's' && FailureLine("vendor", error')[11] == 'v';
  }

  /** The report ends with exactly one verdict line, "remount succeeded"
      exactly when /system is writable and /vendor is writable or absent. */
  lemma RunEndsWithVerdict(systemRo: int, vendorRo: int, os: Os)
    ensures var o := Run(systemRo, vendorRo, os);
      |o.lines| > 0 &&
      (o.lines[|o.lines| - 1] == SucceededLine <==> o.systemRo == 0 && (o.vendorRo == 0 || !os.vendorIsDir)) &&
      (o.lines[|o.lines| - 1] == SucceededLine || o.lines[|o.lines| - 1] == FailedLine) &&
      forall i :: 0 <= i < |o.lines| - 1 ==> o.lines[i] != SucceededLine && o.lines[i] != FailedLine
  {
    var st := Inspect(os.cmdline, os.secureHardware);
    var sys := if Verdict(st) == 0 then Attempt(SystemDir, "system", systemRo, os) else Phase(systemRo, []);
    var ven := if os.vendorIsDir then Attempt(VendorDir, "vendor", vendorRo, os) else Phase(vendorRo, []);
    var body := Guidance(st) + sys.lines + ven.lines;
    FailureLineNotVerdict("system", os.errorText(SystemDir));
    FailureLineNotVerdict("vendor", os.errorText(VendorDir));
    assert SucceededLine !in Guidance(st) && FailedLine !in Guidance(st);
    assert SucceededLine !in body && FailedLine !in body;
    assert Run(systemRo, vendorRo, os).lines == body + [VerdictLine(Succeeded(sys.ro, ven.ro, os.vendorIsDir))];
  }

  /** /system is remounted exactly when the write-protect check returns 0:
      otherwise its flag is untouched and no failure is reported for it. */
  lemma SystemGatedByCheck(systemRo: int, vendorRo: int, os: Os)
    ensures var o := Run(systemRo, vendorRo, os);
      var check := Verdict(Inspect(os.cmdline, os.secureHardware));
      var sys := RemountStep(SystemDir, systemRo, os);
      var line := FailureLine("system", os.errorText(SystemDir));
      (check != 0 ==> o.systemRo == systemRo && line !in o.lines) &&
      (check == 0 ==> o.systemRo == sys.ro && (line in o.lines <==> sys.ret != 0))
  {
    var st := Inspect(os.cmdline, os.secureHardware);
    var line := FailureLine("system", os.errorText(SystemDir));
    FailureLineNotVerdict("system", os.errorText(SystemDir));
    FailureLineNotGuidance("system", os.errorText(SystemDir), st);
    FailureLinesDiffer(os.errorText(SystemDir), os.errorText(VendorDir));
    var ven := if os.vendorIsDir then Attempt(VendorDir, "vendor", vendorRo, os) else Phase(vendorRo, []);
    assert line !in ven.lines;
  }

  /** /vendor is remounted exactly when it is a directory: otherwise its flag
      is untouched, no failure is reported for it, and it does not count
      against the verdict. */
  lemma VendorGatedByDirectory(systemRo: int, vendorRo: int, os: Os)
    ensures var o := Run(systemRo, vendorRo, os);
      var ven := RemountStep(VendorDir, vendorRo, os);
      var line := FailureLine("vendor", os.errorText(VendorDir));
      (!os.vendorIsDir ==> o.vendorRo == vendorRo && line !in o.lines) &&
      (os.vendorIsDir ==> o.vendorRo == ven.ro && (line in o.lines <==> ven.ret != 0))
  {
    var st := Inspect(os.cmdline, os.secureHardware);
    var line := FailureLine("vendor", os.errorText(VendorDir));
    FailureLineNotVerdict("vendor", os.errorText(VendorDir));
    FailureLineNotGuidance("vendor", os.errorText(VendorDir), st);
    FailureLinesDiffer(os.errorText(SystemDir), os.errorText(VendorDir));
    var sys := if Verdict(st) == 0 then Attempt(SystemDir, "system", systemRo, os) else Phase(systemRo, []);
    assert line !in sys.lines;
  }

  /** From the flags a process starts with, the report is "remount succeeded"
      exactly when the lock is off, /system's mount call is reached and
      succeeds, and so does /vendor's when /vendor is a directory. */
  lemma FreshRunSucceedsIff(os: Os)
    ensures var o := Run(1, 1, os);
      o.lines[|o.lines| - 1] == SucceededLine <==>
        Verdict(Inspect(os.cmdline, os.secureHardware)) == 0 &&
        MountCall(SystemDir, os) == Some(0) &&
        (!os.vendorIsDir || MountCall(VendorDir, os) == Some(0))
  {
    RunEndsWithVerdict(1, 1, os);
  }

  /** With the lock on, a process whose /system flag is still the initial 1
      always reports "remount failed". */
  lemma ProtectedFromStartFails(vendorRo: int, os: Os)
    requires Verdict(Inspect(os.cmdline, os.secureHardware)) == 1
    ensures var o := Run(1, vendorRo, os); o.lines[|o.lines| - 1] == FailedLine
  {
    RunEndsWithVerdict(1, vendorRo, os);
  }

  /** The flags persist between calls: once /system has been made writable,
      a later call with the lock on and no vendor directory still reports
      "remount succeeded". */
  lemma WritableSystemPersists(vendorRo: int, os: Os)
    requires Verdict(Inspect(os.cmdline, os.secureHardware)) == 1 && !os.vendorIsDir
    ensures var o := Run(0, vendorRo, os); o.systemRo == 0 && o.lines[|o.lines| - 1] == SucceededLine
  {
    RunEndsWithVerdict(0, vendorRo, os);
  }

  /** A table whose one line lists /system on a device that opens and
      remounts, no vendor directory and the lock off: /system becomes
      writable and the report is "remount succeeded". */
  lemma SystemOnlySucceeds(os: Os, dev: string, fstype: string, options: string)
    requires IsToken(dev, WordBreaks) && IsToken(fstype, WordBreaks) && IsToken(options, WordBreaks)
    requires os.mounts == Some(FormatLine(MountEntry(dev, SystemDir, 0, 0), fstype, options))
    requires |os.mounts.value| <= MountsCap
    requires Verdict(Inspect(os.cmdline, os.secureHardware)) == 0
    requires dev in os.openable && os.mountResult(dev, SystemDir) == 0
    requires !os.vendorIsDir
    ensures var o := Run(1, 1, os); o.systemRo == 0 && o.lines[|o.lines| - 1] == SucceededLine
  {
    assert IsToken(SystemDir, WordBreaks);
    SingleLineTable(MountEntry(dev, SystemDir, 0, 0), fstype, options);
    assert MountCall(SystemDir, os) == Some(0);
    FreshRunSucceedsIff(os);
  }

  /** `console=ttyS0 write_protect=1` with the property unset: the report
      advises the test-mode unlock, /system is not touched and the verdict
      is "remount failed". */
  lemma LockedSkipsSystem(vendorRo: int, os: Os)
    requires os.cmdline == Some("console=ttyS0 write_protect=1") && os.secureHardware == ""
    ensures var o := Run(1, vendorRo, os);
      WptestLine in o.lines && o.systemRo == 1 && o.lines[|o.lines| - 1] == FailedLine
  {
    WptestGuidanceExample();
    ProtectedFromStartFails(vendorRo, os);
  }

  /** /system remounts, /vendor is a directory whose device opens but whose
      remount is refused with EACCES: the vendor failure is reported and the
      verdict is "remount failed". */
  lemma VendorRefusedFails(os: Os, vendorDev: string)
    requires Verdict(Inspect(os.cmdline, os.secureHardware)) == 0
    requires MountCall(SystemDir, os) == Some(0)
    requires os.vendorIsDir
    requires FindMountSpec(os.mounts, VendorDir) == Some(vendorDev) && vendorDev in os.openable
    requires os.mountResult(vendorDev, VendorDir) == -1 && os.errorText(VendorDir) == "Permission denied"
    ensures var o := Run(1, 1, os);
      "remount of vendor failed: Permission denied\n" in o.lines && o.lines[|o.lines| - 1] == FailedLine
  {
    PermissionDeniedLine();
    assert RemountStep(VendorDir, 1, os) == Step(-1, -1);
    RunEndsWithVerdict(1, 1, os);
  }

  /** A failure line whose part and error text hold no NUL and fit the
      200-byte buffer is written whole. */
  lemma FailureLineWhole(part: string, error: string)
    requires |part| + |error| <= MessageCap - 21
    requires forall k :: 0 <= k < |part| ==> part[k] != '\0'
    requires forall k :: 0 <= k < |error| ==> error[k] != '\0'
    ensures FailureLine(part, error) == "remount of " + part + " failed: " + error + "\n"
  {
    var raw := "remount of " + part + " failed: " + error + "\n";
    var e0 := 11 + |part| + 9;
    assert forall k :: 11 <= k < 11 + |part| ==> raw[k] == part[k - 11];
    assert forall k :: e0 <= k < e0 + |error| ==> raw[k] == error[k - e0];
    CBufferWhole(raw, MessageCap);
  }

  /** The vendor failure line for EACCES fits the message buffer whole. */
  lemma PermissionDeniedLine()
    ensures FailureLine("vendor", "Permission denied") == "remount of vendor failed: Permission denied\n"
  {
    FailureLineWhole("vendor", "Permission denied");
  }
}
