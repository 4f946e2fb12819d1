/**
 * `MOT_check_system_is_write_protected`: whether the eMMC write-protect
 * lock is on, judged from the kernel command line, and the guidance it
 * prints about it.
 */
module WriteProtect {
  import opened Wrappers
  import opened CText
  import opened Output

  /** `char buf[512]`, whose last byte is kept for the terminating NUL. */
  const CmdlineCap: nat := 511

  const EnabledMarker := "write_protect=1"
  const DisabledMarker := "write_protect=0"

  // The two long messages are spelled in short pieces: the verifier sees
  // the characters of a short literal but not those of a long one.
  const ProtectedLine := "System folder is " + "write protected. " + "To disable use:\n"
  const UnlockLine := "fastboot oem unlock\n"
  const WptestLine := "fastboot oem wptest disable\n"
  const UnknownLine := "WARNING: System " + "folder write " + "protect state " + "unknown!\n"

  /** What the check concludes; it is not kept between calls. */
  datatype Status =
    | LockedSecureUnlock   // protected, `ro.boot.secure_hardware` is "1"
    | LockedTestUnlock     // protected, any other property value
    | Unknown              // neither marker on the command line
    | NotProtected         // explicit `write_protect=0`, or no command line

  /** The conclusion drawn from a read of `/proc/cmdline` (None when it
      cannot be opened) and the value of `ro.boot.secure_hardware` ("" when
      unset). The enabled marker is searched for first. */
  function Inspect(cmdline: Option<string>, secureHardware: string): Status
  {
    match cmdline
    case None => NotProtected
    case Some(raw) =>
      var buf := CBuffer(raw, CmdlineCap);
      if Contains(buf, EnabledMarker) then
        (if secureHardware == "1" then LockedSecureUnlock else LockedTestUnlock)
      else if !Contains(buf, DisabledMarker) then Unknown
      else NotProtected
  }

  /** The value the check returns: 1 when the remount of /system must be skipped. */
  function Verdict(st: Status): int
  {
    if st.LockedSecureUnlock? || st.LockedTestUnlock? then 1 else 0
  }

  /** The lines the check writes. */
  function Guidance(st: Status): seq<string>
  {
    match st
    case LockedSecureUnlock => [ProtectedLine, UnlockLine]
    case LockedTestUnlock => [ProtectedLine, WptestLine]
    case Unknown => [UnknownLine]
    case NotProtected => []
  }

  /** The check itself, writing its guidance to `out`. */
  method CheckSystemIsWriteProtected(out: Sink, cmdline: Option<string>, secureHardware: string)
    returns (r: int)
    requires !out.closed
    modifies out
    ensures r == Verdict(Inspect(cmdline, secureHardware))
    ensures out.lines == old(out.lines) + Guidance(Inspect(cmdline, secureHardware))
    ensures !out.closed
  {
    if cmdline.None? {
      return 0;
    }
    var buf := CBuffer(cmdline.value, CmdlineCap);
    if Contains(buf, EnabledMarker) {
      out.Write(ProtectedLine);
      if secureHardware == "1" {
        out.Write(UnlockLine);
      } else {
        out.Write(WptestLine);
      }
      return 1;
    } else if !Contains(buf, DisabledMarker) {
      out.Write(UnknownLine);
    }
    return 0;
  }

  /** The enabled marker anywhere in the part of the command line that fits
      the buffer wins, whatever else is there (the disabled marker too): the
      check returns 1 and prints two lines, the second chosen by whether the
      property is exactly "1". */
  lemma EnabledMarkerWins(before: string, after: string, secureHardware: string)
    requires |before| + |EnabledMarker| <= CmdlineCap
    requires forall k :: 0 <= k < |before| ==> before[k] != '\0'
    ensures var st := Inspect(Some(before + EnabledMarker + after), secureHardware);
      Verdict(st) == 1 &&
      Guidance(st) == [ProtectedLine, if secureHardware == "1" then UnlockLine else WptestLine]
  {
    var raw := before + EnabledMarker + after;
    var p := before + EnabledMarker;
    assert raw[..|p|] == p;
    assert forall k :: 0 <= k < |p| ==> p[k] != '\0' by {
      assert forall k :: |before| <= k < |p| ==> p[k] == EnabledMarker[k - |before|];
    }
    CBufferKeepsPrefix(raw, p, CmdlineCap);
    var buf := CBuffer(raw, CmdlineCap);
    assert buf[|before|..|p|] == EnabledMarker;
    ContainsAt(buf, EnabledMarker, |before|);
  }

  /** Returning 1 happens only for the enabled marker, and always comes with
      the two guidance lines. */
  lemma VerdictOneIffEnabled(cmdline: Option<string>, secureHardware: string)
    ensures var st := Inspect(cmdline, secureHardware);
      (Verdict(st) == 1 <==> cmdline.Some? && Contains(CBuffer(cmdline.value, CmdlineCap), EnabledMarker)) &&
      (Verdict(st) == 1 <==> |Guidance(st)| == 2) &&
      (|Guidance(st)| == 2 ==> Guidance(st)[0] == ProtectedLine)
  {
  }

  /** The three ways of returning 0. */
  lemma VerdictZeroCases(cmdline: Option<string>, secureHardware: string)
    ensures cmdline.None? ==> Verdict(Inspect(cmdline, secureHardware)) == 0 && Guidance(Inspect(cmdline, secureHardware)) == []
    ensures cmdline.Some? ==>
      var buf := CBuffer(cmdline.value, CmdlineCap);
      (!Contains(buf, EnabledMarker) && Contains(buf, DisabledMarker) ==>
        Verdict(Inspect(cmdline, secureHardware)) == 0 && Guidance(Inspect(cmdline, secureHardware)) == []) &&
      (!Contains(buf, EnabledMarker) && !Contains(buf, DisabledMarker) ==>
        Verdict(Inspect(cmdline, secureHardware)) == 0 && Guidance(Inspect(cmdline, secureHardware)) == [UnknownLine])
  {
  }

  /** A command line of `console=ttyS0 write_protect=1` with the property
      unset: the lock is on and the test-mode unlock is advised. */
  lemma WptestGuidanceExample()
    ensures Inspect(Some("console=ttyS0 write_protect=1"), "") == LockedTestUnlock
    ensures WptestLine in Guidance(Inspect(Some("console=ttyS0 write_protect=1"), ""))
  {
    EnabledMarkerWins("console=ttyS0 ", "", "");
    assert "console=ttyS0 " + EnabledMarker + "" == "console=ttyS0 write_protect=1";
  }
}
