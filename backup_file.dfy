/**
  The name `save_config` of config_backup.py gives a saved configuration:
  `<output_dir>/<ip>_<timestamp>.cfg`, the timestamp being
  `strftime('%Y%m%d_%H%M%S')` of the clock reading.
 */
module BackupFile {
  import opened Wrappers
  import opened Text

  type Year = y: int | 1000 <= y <= 9999 witness 1000
  type Month = m: int | 1 <= m <= 12 witness 1
  type Day = d: int | 1 <= d <= 31 witness 1
  type Hour = h: int | 0 <= h <= 23
  type Minute = m: int | 0 <= m <= 59
  type Second = s: int | 0 <= s <= 59

  /** A clock reading, to the second. */
  datatype DateTime = DateTime(year: Year, month: Month, day: Day, hour: Hour, minute: Minute, second: Second)

  function DigitChar(n: int): char
    requires 0 <= n <= 9
  {
    ('0' as int + n) as char
  }

  function DigitValue(c: char): int {
    c as int - '0' as int
  }

  /** `n` written with exactly `width` decimal digits, zero-padded. */
  function Padded(n: nat, width: nat): (s: string)
    requires n < Pow10(width)
    ensures |s| == width && AllDigits(s)
    decreases width
  {
    if width == 0 then ""
    else
      var s := Padded(n / 10, width - 1) + [DigitChar(n % 10)];
      assert forall i :: 0 <= i < width - 1 ==> s[i] == Padded(n / 10, width - 1)[i];
      s
  }

  function Pow10(k: nat): (p: nat)
    ensures p >= 1
  {
    if k == 0 then 1 else 10 * Pow10(k - 1)
  }

  /** The number a run of decimal digits spells. */
  function DigitsValue(s: string): nat
    requires AllDigits(s)
  {
    if s == [] then 0 else 10 * DigitsValue(s[..|s| - 1]) + DigitValue(s[|s| - 1])
  }

  /** Reading a padded number back gives the number. */
  lemma {:induction false} PaddedValue(n: nat, width: nat)
    requires n < Pow10(width)
    ensures DigitsValue(Padded(n, width)) == n
    decreases width
  {
    if width > 0 {
      var s := Padded(n, width);
      assert s[..|s| - 1] == Padded(n / 10, width - 1);
      PaddedValue(n / 10, width - 1);
    }
  }

  lemma AllDigitsAppend(a: string, b: string)
    requires AllDigits(a) && AllDigits(b)
    ensures AllDigits(a + b)
  {
    forall i | 0 <= i < |a + b| ensures IsDigit((a + b)[i]) {
      if i < |a| {
        assert (a + b)[i] == a[i];
      } else {
        assert (a + b)[i] == b[i - |a|];
      }
    }
  }

  /** `strftime('%Y%m%d')`. */
  function DatePart(t: DateTime): (s: string)
    ensures |s| == 8 && AllDigits(s)
  {
    AllDigitsAppend(Padded(t.year, 4), Padded(t.month, 2));
    AllDigitsAppend(Padded(t.year, 4) + Padded(t.month, 2), Padded(t.day, 2));
    Padded(t.year, 4) + Padded(t.month, 2) + Padded(t.day, 2)
  }

  /** `strftime('%H%M%S')`. */
  function TimePart(t: DateTime): (s: string)
    ensures |s| == 6 && AllDigits(s)
  {
    AllDigitsAppend(Padded(t.hour, 2), Padded(t.minute, 2));
    AllDigitsAppend(Padded(t.hour, 2) + Padded(t.minute, 2), Padded(t.second, 2));
    Padded(t.hour, 2) + Padded(t.minute, 2) + Padded(t.second, 2)
  }

  /** `strftime('%Y%m%d_%H%M%S')`. */
  function Timestamp(t: DateTime): (s: string)
    ensures |s| == 15 && s[8] == '_'
    ensures AllDigits(s[..8]) && AllDigits(s[9..])
  {
    var s := DatePart(t) + "_" + TimePart(t);
    assert s[..8] == DatePart(t) && s[9..] == TimePart(t);
    s
  }

  /** The clock reading a timestamp spells, if it spells one. */
  function ParseTimestamp(s: string): Option<DateTime> {
    if |s| != 15 || s[8] != '_' || !AllDigits(s[..8]) || !AllDigits(s[9..]) then None
    else
      var year := DigitsValue(s[0..4]);
      var month := DigitsValue(s[4..6]);
      var day := DigitsValue(s[6..8]);
      var hour := DigitsValue(s[9..11]);
      var minute := DigitsValue(s[11..13]);
      var second := DigitsValue(s[13..15]);
      if 1000 <= year <= 9999 && 1 <= month <= 12 && 1 <= day <= 31 && hour <= 23 && minute <= 59 && second <= 59
      then Some(DateTime(year, month, day, hour, minute, second))
      else None
  }

  /** Where each field sits in a timestamp. */
  lemma TimestampFields(t: DateTime)
    ensures var s := Timestamp(t);
      && s[0..4] == Padded(t.year, 4) && s[4..6] == Padded(t.month, 2) && s[6..8] == Padded(t.day, 2)
      && s[9..11] == Padded(t.hour, 2) && s[11..13] == Padded(t.minute, 2) && s[13..15] == Padded(t.second, 2)
  {
    var date := DatePart(t);
    var time := TimePart(t);
    var s := Timestamp(t);
    assert s[..8] == date && s[9..] == time;
    assert s[0..4] == date[0..4] && s[4..6] == date[4..6] && s[6..8] == date[6..8];
    assert s[9..11] == time[0..2] && s[11..13] == time[2..4] && s[13..15] == time[4..6];
  }

  /** A timestamp is read back as the clock reading it was made from. */
  lemma ParseTimestampOfTimestamp(t: DateTime)
    ensures ParseTimestamp(Timestamp(t)) == Some(t)
  {
    TimestampFields(t);
    PaddedValue(t.year, 4);
    PaddedValue(t.month, 2);
    PaddedValue(t.day, 2);
    PaddedValue(t.hour, 2);
    PaddedValue(t.minute, 2);
    PaddedValue(t.second, 2);
  }

  /** Distinct clock readings give distinct timestamps. */
  lemma TimestampInjective(t1: DateTime, t2: DateTime)
    requires Timestamp(t1) == Timestamp(t2)
    ensures t1 == t2
  {
    ParseTimestampOfTimestamp(t1);
    ParseTimestampOfTimestamp(t2);
  }

  /** `f"{ip}_{timestamp}.cfg"`: the file name inside the output directory. */
  function BackupName(ip: string, t: DateTime): (name: string)
    ensures |name| == |ip| + 20
  {
    ip + "_" + Timestamp(t) + ".cfg"
  }

  /** `f"{output_dir}/{ip}_{timestamp}.cfg"`. */
  function BackupPath(dir: string, ip: string, t: DateTime): (path: string)
    ensures |path| == |dir| + |ip| + 21
    ensures dir + "/" <= path
  {
    dir + "/" + BackupName(ip, t)
  }

  /** The address and clock reading a backup file name encodes, if it is one. */
  function ParseBackupName(name: string): Option<(string, DateTime)> {
    if |name| < 20 || name[|name| - 4..] != ".cfg" || name[|name| - 20] != '_' then None
    else match ParseTimestamp(name[|name| - 19..|name| - 4])
      case None => None
      case Some(t) => Some((name[..|name| - 20], t))
  }

  /** The address and clock reading a path of a backup file in `dir` encodes, if it is one. */
  function ParseBackupPath(dir: string, path: string): Option<(string, DateTime)> {
    if dir + "/" <= path then ParseBackupName(path[|dir| + 1..]) else None
  }

  /** Where the parts of a backup file name sit, for any 15-character timestamp. */
  lemma NameParts(ip: string, ts: string)
    requires |ts| == 15
    ensures var name := ip + "_" + ts + ".cfg"; var n := |name|;
      && n == |ip| + 20 && name[n - 4..] == ".cfg" && name[n - 20] == '_'
      && name[n - 19..n - 4] == ts && name[..n - 20] == ip
  {
    var name := ip + "_" + ts + ".cfg";
    var n := |name|;
    var tail := "_" + ts + ".cfg";
    assert name == ip + tail;
    assert name[n - 20..] == tail && name[..n - 20] == ip;
    assert name[n - 19..n - 4] == tail[1..16];
    assert name[n - 4..] == tail[16..];
  }

  /** A backup file name is read back as the address and clock reading it was made from. */
  lemma ParseBackupNameOfBackupName(ip: string, t: DateTime)
    ensures ParseBackupName(BackupName(ip, t)) == Some((ip, t))
  {
    NameParts(ip, Timestamp(t));
    ParseTimestampOfTimestamp(t);
  }

  /** The path determines the address and the clock reading it was made from. */
  lemma ParseBackupPathOfBackupPath(dir: string, ip: string, t: DateTime)
    ensures ParseBackupPath(dir, BackupPath(dir, ip, t)) == Some((ip, t))
  {
    var name := BackupName(ip, t);
    assert (dir + "/" + name)[|dir| + 1..] == name;
    ParseBackupNameOfBackupName(ip, t);
  }

  /**
    Two saves into the same directory write the same file only for the same
    address at the same second.
   */
  lemma BackupPathInjective(dir: string, ip1: string, t1: DateTime, ip2: string, t2: DateTime)
    requires BackupPath(dir, ip1, t1) == BackupPath(dir, ip2, t2)
    ensures ip1 == ip2 && t1 == t2
  {
    ParseBackupPathOfBackupPath(dir, ip1, t1);
    ParseBackupPathOfBackupPath(dir, ip2, t2);
  }
}
