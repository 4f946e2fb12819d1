# Remount service model

A Dafny model of `adb/remount_service.c`, the adb service that remounts the
read-only `/system` and (when present) `/vendor` partitions read-write and
reports the outcome to the client connection.

The model follows the file's four parts:

- **Mount-table lookup** (`find_mount`, module `MountTable`). The table text
  is cut to the 4095 characters the buffer holds (bytes in the code; see
  "Left out"), split into lines the way
  `strtok(…, "\n")` does (empty lines skipped), and each line is read as
  `sscanf` reads `"%255s %255s %*s %*s %d %d"`. The result is the device of
  the first line where all four conversions succeed and whose directory
  equals the query. `FindMount` is the `strtok` loop, proved equal to the
  specification function `FindMountSpec`.
- **Write-protect check** (`MOT_check_system_is_write_protected`, module
  `WriteProtect`). The check searches the first 511 characters of
  `/proc/cmdline` for `write_protect=1`, then for `write_protect=0`. It returns
  0 or 1 and writes 0, 1 or 2 guidance lines to the client.
- **Remount step** (`remount`, module `Remount`). The `int* dir_ro` argument
  is a nullable `Flag` object. The step returns -1 and leaves the flag alone
  when the directory is not in the table or its device does not open.
  Otherwise it stores the mount result in the flag and returns it.
- **Orchestrator** (`remount_service`). The process-wide `system_ro` and
  `vendor_ro` are two distinct `Flag` objects held by `Globals`, which start
  at 1 and persist across calls. The client connection is a `Sink` whose
  `lines` field is only appended to and which is closed at the end.
  `RemountService` is proved against the function `Run`. The lemmas about
  `Run` state the gating, the failure lines and the verdict.

Modules: `Wrappers` (Option), `CText` (bounded C buffers, `strstr`,
`strtok`/`%s` tokenising), `Decimal` (`%d`), `MountTable`, `Output` (the
client connection), `WriteProtect`, `Remount`.

Operating-system answers are inputs, collected in the datatype `Remount.Os`:
- the text a read of `/proc/mounts` or `/proc/cmdline` yields, or None when
  the file cannot be opened;
- the value of `ro.boot.secure_hardware`, "" when unset;
- the set of devices that open;
- the result of `mount` for each device and directory;
- the text of `strerror(errno)` after a failed remount of a directory;
- whether `/vendor` is a directory.

Two facts about the code that the model keeps:
- A mount-table line is accepted when its first six words can be read with
  the fifth and sixth decimal. `sscanf` ignores whatever follows
  (adb/remount_service.c:60-64), so extra trailing words do not reject it.
- Under the lock the check returns 1 whatever `ro.boot.secure_hardware`
  says. The property only chooses the second guidance line
  (adb/remount_service.c:136-141).

## Model

| member | source | states |
|---|---|---|
| `MountTable.FindMount` | adb/remount_service.c:36-70 | the `strtok` loop returns exactly the first-match lookup over the buffered table, and not found when `/proc/mounts` cannot be opened |
| `MountTable.LookupFindsFirst` | adb/remount_service.c:52-69 | if line i is the first one with four conversions and directory equal to the query, its device is the result, even when later lines name the same directory |
| `MountTable.LookupIsFirstMatch` | adb/remount_service.c:52-69 | a device that is found comes from a matching line that no earlier line matches |
| `MountTable.LookupNotFound` | adb/remount_service.c:64-69 | not found exactly when no line both scans in full and names the directory |
| `MountTable.LookupSkipsMalformed` | adb/remount_service.c:60-67 | a line without four conversions never matches, even if its second word is the directory; removing it leaves the result unchanged, so the scan goes on past it |
| `MountTable.ScanFormat` | adb/remount_service.c:60-64 | a line `dev dir fstype options freq passno` with whitespace-free words scans back to the entry it was written from |
| `MountTable.FindMountOfTable` | adb/remount_service.c:48-67 | a NUL-free table that fits the 4095-character buffer is searched line by line, each line in order |
| `MountTable.SingleLineTable` | adb/remount_service.c:36-70 | a one-line table written from an entry resolves that entry's directory to its device |
| `CText.CBufferSpec` | adb/remount_service.c:48-49 | the buffer holds the longest NUL-free prefix of what was read that fits its capacity |
| `CText.CBufferKeepsPrefix` | adb/remount_service.c:126-130 | a NUL-free prefix that fits the buffer is still there after the read |
| `CText.ContainsIff` | adb/remount_service.c:130 | the `strstr` search succeeds exactly when the pattern occurs at some index |
| `CText.TokenEnd` | adb/remount_service.c:52 | the end of a token is the first delimiter, or the end of the text |
| `CText.TokensAreTokens` | adb/remount_service.c:52-67 | every token `strtok` returns is non-empty and has no delimiter |
| `CText.TokensOfJoin` | adb/remount_service.c:52-67 | tokenising tokens joined by a delimiter gives the same tokens back |
| `CText.TokensOfTokenThen` | adb/remount_service.c:52-67 | a token followed by a delimiter or the end of the text is the next token returned |
| `CText.TokensFromPosition` | adb/remount_service.c:52-67 | at a position of the buffer, a delimiter-free run ending at a delimiter or the end is the next token `strtok` returns from there |
| `Decimal.ScanInt` | adb/remount_service.c:60 | the `%d` conversion succeeds exactly on an optionally signed run of digits |
| `Decimal.ScanShow` | adb/remount_service.c:60 | reading back the decimal rendering of any integer gives that integer |
| `Decimal.ShowNatDigits` | adb/remount_service.c:60 | the rendering of a natural number is a non-empty digit string whose value is that number |
| `WriteProtect.CheckSystemIsWriteProtected` | adb/remount_service.c:117-147 | returns the verdict of the inspected command line and appends exactly the guidance lines for it, nothing else |
| `WriteProtect.EnabledMarkerWins` | adb/remount_service.c:130-141 | `write_protect=1` within the buffered command line gives 1 and the two lines, the second being `fastboot oem unlock` exactly when the property is "1", even when `write_protect=0` is present too |
| `WriteProtect.VerdictOneIffEnabled` | adb/remount_service.c:130-146 | the check returns 1 exactly when the enabled marker is found, and exactly then writes two lines, the first one `System folder is write protected…` |
| `WriteProtect.VerdictZeroCases` | adb/remount_service.c:121-146 | cmdline not opened: 0 and nothing written; only `write_protect=0`: 0 and nothing written; neither marker: 0 and exactly the warning line |
| `WriteProtect.WptestGuidanceExample` | adb/remount_service.c:130-141 | `console=ttyS0 write_protect=1` with the property unset is a lock with the test-mode unlock advised |
| `Remount.Globals.constructor` | adb/remount_service.c:32-33 | `system_ro` and `vendor_ro` are distinct flags that start at 1 |
| `Remount.Remount` | adb/remount_service.c:82-109 | a null handle returns 0 and changes nothing; otherwise returns and stores the result of the remount step |
| `Remount.RemountStepCases` | adb/remount_service.c:92-108 | directory not in the table, or device does not open: -1 and flag unchanged; otherwise the flag and the return value are both the mount result, so 0 returned means writable |
| `Remount.MissingMountKeepsFlag` | adb/remount_service.c:92-95 | a directory missing from the mount table returns -1 and never changes the flag |
| `Remount.RemountReporting` | adb/remount_service.c:153-156 | one guarded remount stores the step's flag and appends one failure line exactly when the step returned nonzero |
| `Remount.RemountService` | adb/remount_service.c:149-173 | the flags and the lines written are those of `Run` from the flags before the call, and the connection ends closed |
| `Remount.FailureLinePrefix` | adb/remount_service.c:154 | a failure line, cut to 199 characters, still begins `remount of <part> fail` whatever the error text |
| `Remount.FailureLineNotVerdict` | adb/remount_service.c:154-170 | a failure line is never one of the two verdict lines |
| `Remount.FailureLineNotGuidance` | adb/remount_service.c:134-155 | a failure line is never one of the write-protect guidance lines |
| `Remount.FailureLinesDiffer` | adb/remount_service.c:154-161 | the system and vendor failure lines differ whatever the error texts |
| `Remount.RunEndsWithVerdict` | adb/remount_service.c:166-170 | the report ends with exactly one verdict line, `remount succeeded` exactly when `!system_ro && (!vendor_ro \|\| !hasVendor)`, and no earlier line is a verdict line |
| `Remount.SystemGatedByCheck` | adb/remount_service.c:152-157 | `/system` is remounted exactly when the check returns 0; otherwise its flag is unchanged and no system failure line appears; when remounted, the failure line appears exactly when the step returned nonzero |
| `Remount.VendorGatedByDirectory` | adb/remount_service.c:159-164 | `/vendor` is remounted exactly when it is a directory; otherwise its flag is unchanged and no vendor failure line appears |
| `Remount.FreshRunSucceedsIff` | adb/remount_service.c:152-167 | from the initial flags, success is reported exactly when the lock is off, `/system`'s mount is reached and returns 0, and so does `/vendor`'s when it is a directory |
| `Remount.ProtectedFromStartFails` | adb/remount_service.c:152-170 | with the lock on and `system_ro` still 1, the report is always `remount failed` |
| `Remount.WritableSystemPersists` | adb/remount_service.c:32-33 | a `system_ro` of 0 left by an earlier call survives a call with the lock on, which then reports success when there is no vendor directory |
| `Remount.SystemOnlySucceeds` | adb/remount_service.c:149-170 | a one-line table listing `/system` on a device that opens and remounts, the lock off and no vendor directory: `system_ro` becomes 0 and the report is `remount succeeded` |
| `Remount.LockedSkipsSystem` | adb/remount_service.c:130-170 | `console=ttyS0 write_protect=1` with the property unset: the test-mode unlock is advised, `system_ro` stays 1 and the report is `remount failed` |
| `Remount.VendorRefusedFails` | adb/remount_service.c:159-170 | `/system` remounts, `/vendor` exists but its remount is refused with EACCES: `remount of vendor failed: Permission denied` is written and the report is `remount failed` |
| `Remount.FailureLineWhole` | adb/remount_service.c:154-161 | a failure line whose part and error text have no NUL and fit the 200-byte buffer is the full formatted message, not cut |
| `Remount.PermissionDeniedLine` | adb/remount_service.c:161-162 | the vendor failure line for `Permission denied` fits the 200-byte buffer whole |
| `Output.Sink.Write` | adb/remount_service.c:111-114 | writing a string appends it to what the connection has received |
| `Output.Sink.Close` | adb/remount_service.c:172 | closing the connection keeps what was written |

## Left out

- Operating-system calls (`unix_open`, `adb_read`, `mount`, `lstat`, `property_get`) are not executed. What they report is an input in `Remount.Os`.
- `ioctl(BLKROSET)` is not modelled. The code ignores its result, so it is not an input either.
- `writex` and `adb_close` on the client connection become `Output.Sink.Write` and `Output.Sink.Close`. Short writes and write errors are not modelled. `adb_close` on the files read is not modelled. None of these calls reports anything into `Remount.Os`.
- `Remount.RemountService`: `find_mount` reads `/proc/mounts` afresh on each call (adb/remount_service.c:44-49, 92). So the `/vendor` lookup reads the table after the `/system` remount may have changed it. The model gives both lookups the same text `Os.mounts`, so it does not capture a table that changes between the two reads.
- Buffer caps: the caps of 4095, 511 and 199 (adb/remount_service.c:42, 119, 151) count bytes. `CText.CBuffer` counts Dafny characters (Unicode scalar values). Text that is not ASCII is therefore cut at a different place than in the code. Byte encoding is not modelled.
- `hasVendorPartition` is the boolean input `Os.vendorIsDir`. The code calls it twice (before the vendor remount and in the verdict); the model assumes both calls agree.
- The `strerror(errno)` text is an input per directory (`Os.errorText`). After a lookup failure errno is not set by the code, so this text is unspecified there.
- Bytes left uninitialised after a short `adb_read` are not modelled. The model assumes the text read is followed by a NUL. The code only writes the NUL at the last buffer position.
- A failed `adb_read` (return -1) is not modelled. The file is either unopenable (None) or yields some text.
- `%d` is modelled as "the whole word is an optionally signed decimal number". Partial prefix parses (`12abc`) and overflow of `int` are not modelled.
- `MountTable.ScanLine` and the lookup lemmas: for a word longer than 255 characters, the code stores only its first 255 characters. So only those are compared with the query, and the rest of the word is read as the next fields. The model compares and skips the whole word.
- Memory management (`strdup`/`free`, and the leak of `dev` when the device does not open) is not modelled.
- Concurrent service calls racing on `system_ro`/`vendor_ro` are not modelled. Each call runs alone.
- The `cookie` argument of `remount_service` is unused by the code and is left out.
