/** `read_ip_list` of config_backup.py: the address list file as a list of entries. */
module IpList {
  import opened Wrappers
  import opened Text

  /** The entries of a sequence of lines: each line stripped, blank lines dropped, order and duplicates kept. */
  function Entries(lines: seq<string>): (r: seq<string>)
    ensures |r| <= |lines|
    ensures forall k :: 0 <= k < |r| ==> r[k] != [] && Trimmed(r[k])
  {
    if lines == [] then []
    else
      var e := Strip(lines[0]);
      var rest := Entries(lines[1..]);
      StripTrimmed(lines[0]);
      if e == [] then rest
      else
        assert forall k :: 1 <= k < |rest| + 1 ==> ([e] + rest)[k] == rest[k - 1];
        [e] + rest
  }

  /**
    `read_ip_list(file_path)`: the file's contents are `None` when opening or reading
    it raised, in which case the list is empty.
   */
  function ReadIpList(file: Option<string>): (ips: seq<string>)
    ensures file.None? ==> ips == []
    ensures forall k :: 0 <= k < |ips| ==> ips[k] != [] && Trimmed(ips[k])
  {
    match file
    case None => []
    case Some(text) => Entries(Lines(text, UniversalNewlines))
  }

  /** A line contributes its stripped form exactly when that is non-empty. */
  lemma EntriesOfLine(line: string)
    ensures Entries([line]) == if AllSpace(line) then [] else [Strip(line)]
  {
    assert [line][1..] == [];
    StripTrimmed(line);
  }

  /** Entries of a file are the entries of its parts in file order: nothing is reordered or merged. */
  lemma {:induction false} EntriesAppend(a: seq<string>, b: seq<string>)
    ensures Entries(a + b) == Entries(a) + Entries(b)
  {
    if a == [] {
      assert a + b == b;
    } else {
      assert (a + b)[0] == a[0];
      assert (a + b)[1..] == a[1..] + b;
      EntriesAppend(a[1..], b);
    }
  }

  /** A list written one entry per line is read back unchanged. */
  lemma {:induction false} ReadWrittenList(ips: seq<string>)
    requires forall k :: 0 <= k < |ips| ==> ips[k] != [] && Trimmed(ips[k]) && NoBreak(UniversalNewlines, ips[k])
    ensures ReadIpList(Some(Terminated(ips))) == ips
  {
    LinesOfTerminated(ips, UniversalNewlines);
    EntriesOfTrimmed(ips);
  }

  lemma {:induction false} EntriesOfTrimmed(ips: seq<string>)
    requires forall k :: 0 <= k < |ips| ==> ips[k] != [] && Trimmed(ips[k])
    ensures Entries(ips) == ips
  {
    if ips != [] {
      var e := ips[0];
      assert SpaceEnd(e, 0) == 0 && SpaceStart(e, |e|) == |e|;
      assert e[0..|e|] == e;
      EntriesOfTrimmed(ips[1..]);
    }
  }
}
