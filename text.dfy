/**
  The parts of Python's `str` that both scripts rely on, over `seq<char>`:
  whitespace, `strip()`, `splitlines()` and text-mode line iteration,
  `split()[0]`, substring membership and `lower()`.
 */
module Text {
  import opened Wrappers

  /** Python's `str.isspace()` for one character: what `strip()` and `split()` remove. */
  predicate IsSpace(c: char) {
    || c == ' ' || c == '\t' || c == '\n' || c == '\r' || c == '\U{0B}' || c == '\U{0C}'
    || ('\U{1C}' <= c <= '\U{1F}') || c == '\U{85}' || c == '\U{A0}' || c == '\U{1680}'
    || ('\U{2000}' <= c <= '\U{200A}') || c == '\U{2028}' || c == '\U{2029}'
    || c == '\U{202F}' || c == '\U{205F}' || c == '\U{3000}'
  }

  predicate IsDigit(c: char) { '0' <= c <= '9' }

  predicate IsHexDigit(c: char) { IsDigit(c) || 'a' <= c <= 'f' || 'A' <= c <= 'F' }

  predicate AllSpace(s: string) { forall i :: 0 <= i < |s| ==> IsSpace(s[i]) }

  predicate NoSpace(s: string) { forall i :: 0 <= i < |s| ==> !IsSpace(s[i]) }

  predicate AllDigits(s: string) { forall i :: 0 <= i < |s| ==> IsDigit(s[i]) }

  /** No leading and no trailing whitespace. */
  predicate Trimmed(s: string) { s == [] || (!IsSpace(s[0]) && !IsSpace(s[|s| - 1])) }

  /** The index of the first non-whitespace character at or after `i`, or `|s|`. */
  function SpaceEnd(s: string, i: nat): (k: nat)
    requires i <= |s|
    ensures i <= k <= |s|
    ensures k == |s| || !IsSpace(s[k])
    ensures forall j :: i <= j < k ==> IsSpace(s[j])
    decreases |s| - i
  {
    if i == |s| || !IsSpace(s[i]) then i else SpaceEnd(s, i + 1)
  }

  /** The index just after the last non-whitespace character before `j`, or 0. */
  function SpaceStart(s: string, j: nat): (k: nat)
    requires j <= |s|
    ensures k <= j
    ensures k == 0 || !IsSpace(s[k - 1])
    ensures forall m :: k <= m < j ==> IsSpace(s[m])
  {
    if j == 0 || !IsSpace(s[j - 1]) then j else SpaceStart(s, j - 1)
  }

  /** `s.strip()`: `s` without its leading and trailing whitespace. */
  function Strip(s: string): string {
    var a := SpaceEnd(s, 0);
    var b := SpaceStart(s, |s|);
    if a < b then s[a..b] else ""
  }

  /** What `strip()` leaves: no whitespace at either end, and nothing at all exactly for an all-whitespace `s`. */
  lemma StripTrimmed(s: string)
    ensures Trimmed(Strip(s))
    ensures Strip(s) == [] <==> AllSpace(s)
  {
    var a := SpaceEnd(s, 0);
    var b := SpaceStart(s, |s|);
    if a < b {
      assert s[a..b][0] == s[a] && s[a..b][b - a - 1] == s[b - 1];
      assert !AllSpace(s) by { assert !IsSpace(s[a]); }
    } else {
      forall j | 0 <= j < |s| ensures IsSpace(s[j]) {
      }
    }
  }

  /** `s` is whitespace, then `Strip(s)` starting at the returned index `i`, then whitespace. */
  lemma StripSplit(s: string) returns (i: nat)
    ensures i + |Strip(s)| <= |s| && s[i..i + |Strip(s)|] == Strip(s)
    ensures AllSpace(s[..i]) && AllSpace(s[i + |Strip(s)|..])
  {
    var a := SpaceEnd(s, 0);
    var b := SpaceStart(s, |s|);
    if a < b {
      i := a;
    } else {
      i := 0;
      StripTrimmed(s);
    }
  }

  /** Stripping is idempotent: a stripped string has nothing left to strip. */
  lemma StripIdempotent(s: string)
    ensures Strip(Strip(s)) == Strip(s)
  {
    StripTrimmed(s);
    var r := Strip(s);
    if r != [] {
      assert SpaceEnd(r, 0) == 0;
      assert SpaceStart(r, |r|) == |r|;
      assert r[0..|r|] == r;
    }
  }

  /** Which characters end a line: text-mode file iteration (universal newlines) or `str.splitlines()`. */
  datatype LineBreaks = UniversalNewlines | LineBoundaries

  predicate IsBreak(mode: LineBreaks, c: char) {
    match mode
    case UniversalNewlines => c == '\n' || c == '\r'
    case LineBoundaries =>
      || c == '\n' || c == '\r' || c == '\U{0B}' || c == '\U{0C}' || c == '\U{1C}'
      || c == '\U{1D}' || c == '\U{1E}' || c == '\U{85}' || c == '\U{2028}' || c == '\U{2029}'
  }

  predicate NoBreak(mode: LineBreaks, s: string) { forall i :: 0 <= i < |s| ==> !IsBreak(mode, s[i]) }

  /** The index of the first line break at or after `i`, or `|s|` when there is none. */
  function LineEnd(s: string, mode: LineBreaks, i: nat): (k: nat)
    requires i <= |s|
    ensures i <= k <= |s|
    ensures k == |s| || IsBreak(mode, s[k])
    ensures forall j :: i <= j < k ==> !IsBreak(mode, s[j])
    decreases |s| - i
  {
    if i == |s| || IsBreak(mode, s[i]) then i else LineEnd(s, mode, i + 1)
  }

  /**
    The lines of `s` without their terminators: `s.splitlines()` for `LineBoundaries`,
    the stripped-of-terminator lines of `for line in f` for `UniversalNewlines`.
    `\r\n` ends one line; a terminator at the very end does not start an empty line.
   */
  function Lines(s: string, mode: LineBreaks): (ls: seq<string>)
    ensures |ls| <= |s|
    ensures forall k :: 0 <= k < |ls| ==> NoBreak(mode, ls[k])
    decreases |s|
  {
    if s == [] then []
    else
      var k := LineEnd(s, mode, 0);
      if k == |s| then [s]
      else
        var next := if s[k] == '\r' && k + 1 < |s| && s[k + 1] == '\n' then k + 2 else k + 1;
        [s[..k]] + Lines(s[next..], mode)
  }

  /** `str.splitlines()`. */
  function SplitLines(s: string): seq<string> {
    Lines(s, LineBoundaries)
  }

  /** Lines each followed by `\n`: the text that a writer of those lines produces. */
  function Terminated(ls: seq<string>): string {
    if ls == [] then "" else ls[0] + "\n" + Terminated(ls[1..])
  }

  /** Splitting undoes writing: lines without break characters come back unchanged. */
  lemma {:induction false} LinesOfTerminated(ls: seq<string>, mode: LineBreaks)
    requires forall k :: 0 <= k < |ls| ==> NoBreak(mode, ls[k])
    ensures Lines(Terminated(ls), mode) == ls
  {
    if ls != [] {
      var l := ls[0];
      var rest := Terminated(ls[1..]);
      var s := Terminated(ls);
      assert s == l + "\n" + rest;
      assert s[|l|] == '\n';
      var k := LineEnd(s, mode, 0);
      assert k == |l|;
      assert s[..k] == l;
      assert s[k + 1..] == rest;
      LinesOfTerminated(ls[1..], mode);
    }
  }

  /** The index of the first whitespace character at or after `i`, or `|s|`. */
  function TokenEnd(s: string, i: nat): (k: nat)
    requires i <= |s|
    ensures i <= k <= |s|
    ensures k == |s| || IsSpace(s[k])
    ensures forall j :: i <= j < k ==> !IsSpace(s[j])
    decreases |s| - i
  {
    if i == |s| || IsSpace(s[i]) then i else TokenEnd(s, i + 1)
  }

  /**
    `s.split()[0]`: the first whitespace-delimited token, or `None` where Python
    raises `IndexError` because `s.split()` is empty.
   */
  function FirstToken(s: string): Option<string> {
    var a := SpaceEnd(s, 0);
    if a == |s| then None else Some(s[a..TokenEnd(s, a)])
  }

  /**
    What `split()[0]` gives: `None` exactly for an all-whitespace `s`, and
    otherwise a non-empty run without whitespace.
   */
  lemma FirstTokenShape(s: string)
    ensures FirstToken(s).None? <==> AllSpace(s)
    ensures FirstToken(s).Some? ==> FirstToken(s).value != [] && NoSpace(FirstToken(s).value)
  {
    var i := SpaceEnd(s, 0);
    if i < |s| {
      assert !AllSpace(s) by { assert !IsSpace(s[i]); }
      var e := TokenEnd(s, i);
      assert forall j :: 0 <= j < e - i ==> s[i..e][j] == s[i + j];
    }
  }

  /** A non-empty, whitespace-free prefix of the stripped line is a prefix of its first token. */
  lemma PrefixOfStrippedIsPrefixOfToken(s: string, p: string)
    requires p != [] && NoSpace(p) && p <= Strip(s)
    ensures FirstToken(s).Some? && p <= FirstToken(s).value
  {
    var a := SpaceEnd(s, 0);
    var b := SpaceStart(s, |s|);
    assert a < b;
    var e := TokenEnd(s, a);
    forall j | 0 <= j < |p| ensures a + j < e && s[a + j] == p[j] {
      assert s[a..b][j] == p[j];
    }
    assert p == s[a..e][..|p|];
  }

  /** Python's `t in s` for strings: `t` occurs in `s` as a contiguous substring. */
  predicate Contains(s: string, t: string)
    decreases |s|
  {
    t <= s || (s != [] && Contains(s[1..], t))
  }

  /** An occurrence at any position makes `t` contained in `s`. */
  lemma {:induction false} ContainsAtIndex(s: string, t: string, i: nat)
    requires i <= |s| && t <= s[i..]
    ensures Contains(s, t)
    decreases i
  {
    if i > 0 {
      assert s[1..][i - 1..] == s[i..];
      ContainsAtIndex(s[1..], t, i - 1);
    } else {
      assert s[i..] == s;
    }
  }

  /** Conversely, a contained `t` occurs at some position of `s`, and this finds one. */
  lemma {:induction false} ContainsOccurs(s: string, t: string) returns (i: nat)
    requires Contains(s, t)
    ensures i <= |s| && t <= s[i..]
    decreases |s|
  {
    if t <= s {
      i := 0;
    } else {
      var j := ContainsOccurs(s[1..], t);
      assert s[1..][j..] == s[j + 1..];
      i := j + 1;
    }
  }

  /** ASCII lower-casing of one character. */
  function LowerChar(c: char): char {
    if 'A' <= c <= 'Z' then (c as int + 32) as char else c
  }

  /** `s.lower()`, restricted to ASCII letters. */
  function Lower(s: string): (r: string)
    ensures |r| == |s|
  {
    seq(|s|, i requires 0 <= i < |s| => LowerChar(s[i]))
  }

  /** Lowercasing twice is lowercasing once. */
  lemma LowerIdempotent(s: string)
    ensures Lower(Lower(s)) == Lower(s)
  {
    forall i | 0 <= i < |s| ensures Lower(Lower(s))[i] == Lower(s)[i] {
      assert Lower(s)[i] == LowerChar(s[i]);
    }
  }
}
