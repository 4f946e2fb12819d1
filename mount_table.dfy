/**
 * `find_mount`: the block device that backs a directory, according to the
 * first usable line of `/proc/mounts` that names the directory.
 */
module MountTable {
  import opened Wrappers
  import opened CText
  import opened Decimal

  /** `char buf[4096]`, whose last byte is kept for the terminating NUL. */
  const MountsCap: nat := 4095

  /** The delimiter set `"\n"` that `strtok` splits the table on. */
  const LineDelims: set<char> := {'\n'}

  /** One line of the mount table, as far as `sscanf` reads it. */
  datatype MountEntry = MountEntry(dev: string, dir: string, freq: int, passno: int)

  /** `sscanf(line, "%s %s %*s %*s %d %d", …)`: an entry when all four
      conversions succeed, None otherwise. Words after the sixth are ignored. */
  function ScanLine(line: string): Option<MountEntry>
  {
    var w := Tokens(line, Whitespace);
    if |w| < 6 then None
    else
      match (ScanInt(w[4]), ScanInt(w[5]))
      case (Some(freq), Some(passno)) => Some(MountEntry(w[0], w[1], freq, passno))
      case _ => None
  }

  /** `res == 4 && strcmp(dir, mount_dir) == 0` */
  predicate Matches(line: string, dir: string)
  {
    ScanLine(line).Some? && ScanLine(line).value.dir == dir
  }

  /** The device of the first matching line. */
  function Lookup(lines: seq<string>, dir: string): Option<string>
  {
    if lines == [] then None
    else if Matches(lines[0], dir) then Some(ScanLine(lines[0]).value.dev)
    else Lookup(lines[1..], dir)
  }

  /** What `find_mount(dir)` returns, given what reading `/proc/mounts`
      yields (None when it cannot be opened). */
  function FindMountSpec(mounts: Option<string>, dir: string): Option<string>
  {
    match mounts
    case None => None
    case Some(raw) => Lookup(Tokens(CBuffer(raw, MountsCap), LineDelims), dir)
  }

  /** The `strtok` loop of `find_mount` over the bytes read from `/proc/mounts`. */
  method FindMount(mounts: Option<string>, dir: string) returns (dev: Option<string>)
    ensures mounts.None? ==> dev.None?
    ensures dev == FindMountSpec(mounts, dir)
  {
    if mounts.None? {
      return None;
    }
    var buf := CBuffer(mounts.value, MountsCap);
    var pos := 0;
    while pos < |buf|
      invariant 0 <= pos <= |buf|
      invariant FindMountSpec(mounts, dir) == Lookup(Tokens(buf[pos..], LineDelims), dir)
      decreases |buf| - pos
    {
      if buf[pos] == '\n' {
        // strtok skips delimiters before a token
        assert buf[pos..][1..] == buf[pos + 1..];
        pos := pos + 1;
      } else {
        var end := pos;
        while end < |buf| && buf[end] != '\n'
          invariant pos <= end <= |buf|
          invariant forall k :: pos <= k < end ==> buf[k] != '\n'
        {
          end := end + 1;
        }
        var token := buf[pos..end];
        TokensFromPosition(buf, pos, end, LineDelims);
        var entry := ScanLine(token);
        if entry.Some? && entry.value.dir == dir {
          return Some(entry.value.dev);
        }
        pos := end;
      }
    }
    assert buf[pos..] == [];
    return None;
  }

  /** First match wins: the device of the first matching line is the result. */
  lemma {:induction false} LookupFindsFirst(lines: seq<string>, dir: string, i: int)
    requires 0 <= i < |lines| && Matches(lines[i], dir)
    requires forall j :: 0 <= j < i ==> !Matches(lines[j], dir)
    ensures Lookup(lines, dir) == Some(ScanLine(lines[i]).value.dev)
  {
    if i > 0 {
      LookupFindsFirst(lines[1..], dir, i - 1);
    }
  }

  /** A device that is found is the device of a matching line that no
      earlier line matches. */
  lemma {:induction false} LookupIsFirstMatch(lines: seq<string>, dir: string)
    ensures Lookup(lines, dir).Some? ==>
      exists i :: 0 <= i < |lines| && Matches(lines[i], dir) &&
        Lookup(lines, dir) == Some(ScanLine(lines[i]).value.dev) &&
        forall j :: 0 <= j < i ==> !Matches(lines[j], dir)
  {
    if lines != [] && !Matches(lines[0], dir) {
      LookupIsFirstMatch(lines[1..], dir);
      if Lookup(lines[1..], dir).Some? {
        var i :| 0 <= i < |lines[1..]| && Matches(lines[1..][i], dir) &&
          Lookup(lines[1..], dir) == Some(ScanLine(lines[1..][i]).value.dev) &&
          forall j :: 0 <= j < i ==> !Matches(lines[1..][j], dir);
        assert forall j :: 1 <= j < i + 1 ==> lines[j] == lines[1..][j - 1];
        assert Matches(lines[i + 1], dir);
      }
    } else if lines != [] {
      assert Matches(lines[0], dir);
    }
  }

  /** Not found exactly when no line matches. */
  lemma {:induction false} LookupNotFound(lines: seq<string>, dir: string)
    ensures Lookup(lines, dir) == None <==> forall i :: 0 <= i < |lines| ==> !Matches(lines[i], dir)
  {
    if lines != [] {
      LookupNotFound(lines[1..], dir);
      assert forall i :: 1 <= i < |lines| ==> lines[i] == lines[1..][i - 1];
    }
  }

  /** A line that `sscanf` cannot read in full never matches, even when its
      second word is the directory, and the scan goes on past it: dropping
      it does not change the result. */
  lemma {:induction false} LookupSkipsMalformed(lines: seq<string>, dir: string, i: int)
    requires 0 <= i < |lines| && ScanLine(lines[i]).None?
    ensures Lookup(lines, dir) == Lookup(lines[..i] + lines[i + 1..], dir)
  {
    if i == 0 {
      assert lines[..i] + lines[i + 1..] == lines[1..];
    } else {
      LookupSkipsMalformed(lines[1..], dir, i - 1);
      assert (lines[..i] + lines[i + 1..])[1..] == lines[1..][..i - 1] + lines[1..][i..];
    }
  }

  /** A mount-table line as the kernel writes it:
      `dev dir fstype options freq passno`. */
  function FormatLine(e: MountEntry, fstype: string, options: string): string
  {
    Join([e.dev, e.dir, fstype, options, ShowInt(e.freq), ShowInt(e.passno)], ' ')
  }

  /** Every well-formed line is read back as the entry it was written from. */
  lemma ScanFormat(e: MountEntry, fstype: string, options: string)
    requires IsToken(e.dev, Whitespace) && IsToken(e.dir, Whitespace)
    requires IsToken(fstype, Whitespace) && IsToken(options, Whitespace)
    ensures ScanLine(FormatLine(e, fstype, options)) == Some(e)
  {
    ShowIntIsToken(e.freq, Whitespace);
    ShowIntIsToken(e.passno, Whitespace);
    var ws := [e.dev, e.dir, fstype, options, ShowInt(e.freq), ShowInt(e.passno)];
    TokensOfJoin(ws, ' ', Whitespace);
    ScanShow(e.freq);
    ScanShow(e.passno);
  }

  /** A table given as whole lines, short enough for the buffer and free of
      NUL characters, is searched line by line. */
  lemma FindMountOfTable(lines: seq<string>, dir: string)
    requires forall i :: 0 <= i < |lines| ==> IsToken(lines[i], LineDelims)
    requires |Join(lines, '\n')| <= MountsCap
    requires forall k :: 0 <= k < |Join(lines, '\n')| ==> Join(lines, '\n')[k] != '\0'
    ensures FindMountSpec(Some(Join(lines, '\n')), dir) == Lookup(lines, dir)
  {
    CBufferWhole(Join(lines, '\n'), MountsCap);
    TokensOfJoin(lines, '\n', LineDelims);
  }

  /** Characters that cannot occur inside a word of a mount-table line. */
  const WordBreaks: set<char> := Whitespace + {'\0'}

  /** A table of one line, written from an entry whose words hold no
      whitespace and no NUL, resolves the entry's directory to its device. */
  lemma SingleLineTable(e: MountEntry, fstype: string, options: string)
    requires IsToken(e.dev, WordBreaks) && IsToken(e.dir, WordBreaks)
    requires IsToken(fstype, WordBreaks) && IsToken(options, WordBreaks)
    requires |FormatLine(e, fstype, options)| <= MountsCap
    ensures FindMountSpec(Some(FormatLine(e, fstype, options)), e.dir) == Some(e.dev)
  {
    var line := FormatLine(e, fstype, options);
    var ws := [e.dev, e.dir, fstype, options, ShowInt(e.freq), ShowInt(e.passno)];
    var lineBreaks := {'\n', '\0'};
    ShowIntIsToken(e.freq, WordBreaks);
    ShowIntIsToken(e.passno, WordBreaks);
    forall i | 0 <= i < |ws|
      ensures IsToken(ws[i], Whitespace) && IsToken(ws[i], lineBreaks)
    {
      TokenForFewerDelims(ws[i], WordBreaks, Whitespace);
      TokenForFewerDelims(ws[i], WordBreaks, lineBreaks);
    }
    ScanFormat(e, fstype, options);
    JoinIsToken(ws, ' ', lineBreaks);
    TokenForFewerDelims(line, lineBreaks, LineDelims);
    assert Join([line], '\n') == line;
    FindMountOfTable([line], e.dir);
  }
}
