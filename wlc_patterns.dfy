/**
  The two regular expressions of test.py, as leftmost searches:
  the MAC address `[0-9a-fA-F]{2}(:[0-9a-fA-F]{2}){5}` and the dotted quad `\d+\.\d+\.\d+\.\d+`.
 */
module WlcPatterns {
  import opened Wrappers
  import opened Text

  /** `m` is a MAC address written as six two-digit hex groups separated by ':'. */
  predicate IsMac(m: string) {
    |m| == 17 && forall k :: 0 <= k < 17 ==> if k % 3 == 2 then m[k] == ':' else IsHexDigit(m[k])
  }

  /** The MAC pattern matches `s` starting at index `i`. */
  predicate MacAt(s: string, i: nat) {
    i + 17 <= |s| && IsMac(s[i..i + 17])
  }

  /** The leftmost index at or after `from` where the MAC pattern matches. */
  function MacIndex(s: string, from: nat): (r: Option<nat>)
    ensures r.Some? ==> from <= r.value && MacAt(s, r.value)
    ensures r.Some? ==> forall k :: from <= k < r.value ==> !MacAt(s, k)
    ensures r.None? ==> forall k :: from <= k ==> !MacAt(s, k)
    decreases |s| - from
  {
    if from + 17 > |s| then None
    else if MacAt(s, from) then Some(from)
    else MacIndex(s, from + 1)
  }

  /** `re.search(MAC, line).group(0)`, or `None` when the line holds no MAC address. */
  function FindMac(line: string): (r: Option<string>)
    ensures r.None? <==> forall k :: !MacAt(line, k)
    ensures r.Some? ==> IsMac(r.value) && Contains(line, r.value)
    ensures r.Some? ==> exists i: nat :: MacAt(line, i) && r.value == line[i..i + 17] && forall k :: 0 <= k < i ==> !MacAt(line, k)
  {
    match MacIndex(line, 0)
    case None => None
    case Some(i) =>
      assert line[i..i + 17] <= line[i..];
      ContainsAtIndex(line, line[i..i + 17], i);
      Some(line[i..i + 17])
  }

  /** The end of the run of ASCII digits that starts at `i`. */
  function DigitRunEnd(s: string, i: nat): (k: nat)
    requires i <= |s|
    ensures i <= k <= |s| && AllDigits(s[i..k])
    ensures k == |s| || !IsDigit(s[k])
    decreases |s| - i
  {
    if i < |s| && IsDigit(s[i]) then
      var k := DigitRunEnd(s, i + 1);
      assert forall j :: 1 <= j < k - i ==> s[i..k][j] == s[i + 1..k][j - 1];
      k
    else i
  }

  /** `t` is `n` non-empty groups of digits separated by single dots. */
  ghost predicate Groups(t: string, n: nat)
    decreases n
  {
    if n == 0 then false
    else if n == 1 then t != [] && AllDigits(t)
    else exists k :: 0 < k < |t| && AllDigits(t[..k]) && t[k] == '.' && Groups(t[k + 1..], n - 1)
  }

  /** `t` is what `\d+\.\d+\.\d+\.\d+` matches in full. */
  ghost predicate IsDottedQuad(t: string) {
    Groups(t, 4)
  }

  /**
    Matching `n` dot-separated digit groups from `i`, greedily as the regular
    expression engine does: every group takes its whole digit run.
   */
  function GroupsEnd(s: string, i: nat, n: nat): (r: Option<nat>)
    requires i <= |s| && n >= 1
    ensures r.Some? ==> i < r.value <= |s|
    decreases n
  {
    var e := DigitRunEnd(s, i);
    if e == i then None
    else if n == 1 then Some(e)
    else if e < |s| && s[e] == '.' then GroupsEnd(s, e + 1, n - 1)
    else None
  }

  /** What the greedy match covers is `n` dot-separated groups, and it stops before a digit. */
  lemma {:induction false} GroupsEndSound(s: string, i: nat, n: nat)
    requires i <= |s| && n >= 1 && GroupsEnd(s, i, n).Some?
    ensures Groups(s[i..GroupsEnd(s, i, n).value], n)
    ensures GroupsEnd(s, i, n).value == |s| || !IsDigit(s[GroupsEnd(s, i, n).value])
    decreases n
  {
    var e := DigitRunEnd(s, i);
    if n > 1 {
      var end := GroupsEnd(s, e + 1, n - 1).value;
      GroupsEndSound(s, e + 1, n - 1);
      var t := s[i..end];
      assert t[..e - i] == s[i..e] && t[e - i] == '.' && t[e - i + 1..] == s[e + 1..end];
    }
  }

  /** A digit run that reaches `m` ends no earlier than `m`. */
  lemma {:induction false} DigitRunReaches(s: string, i: nat, m: nat)
    requires i <= m <= |s| && AllDigits(s[i..m])
    ensures m <= DigitRunEnd(s, i)
    decreases m - i
  {
    if i < m {
      assert s[i] == s[i..m][0];
      assert s[i + 1..m] == s[i..m][1..];
      DigitRunReaches(s, i + 1, m);
    }
  }

  /** A digit run followed by a non-digit ends exactly there. */
  lemma DigitRunStops(s: string, i: nat, m: nat)
    requires i <= m < |s| && AllDigits(s[i..m]) && !IsDigit(s[m])
    ensures DigitRunEnd(s, i) == m
  {
    DigitRunReaches(s, i, m);
  }

  /** After a first group ending in a dot, matching `n` groups is matching `n - 1` groups past the dot. */
  lemma GroupsEndStep(s: string, i: nat, e: nat, n: nat)
    requires i < e < |s| && n > 1 && AllDigits(s[i..e]) && s[e] == '.'
    ensures GroupsEnd(s, i, n) == GroupsEnd(s, e + 1, n - 1)
  {
    DigitRunStops(s, i, e);
  }

  /** The first of several groups: a non-empty digit run, then a dot, then the other groups. */
  lemma FirstGroup(t: string, n: nat) returns (k: nat)
    requires n > 1 && Groups(t, n)
    ensures 0 < k < |t| && AllDigits(t[..k]) && t[k] == '.' && Groups(t[k + 1..], n - 1)
  {
    k :| 0 < k < |t| && AllDigits(t[..k]) && t[k] == '.' && Groups(t[k + 1..], n - 1);
  }

  /** The same, for groups that sit in `s` between `i` and `m`; `e` is the index of the dot. */
  lemma FirstGroupIn(s: string, i: nat, m: nat, n: nat) returns (e: nat)
    requires i <= m <= |s| && n > 1 && Groups(s[i..m], n)
    ensures i < e < m && AllDigits(s[i..e]) && s[e] == '.' && Groups(s[e + 1..m], n - 1)
  {
    var t := s[i..m];
    var k := FirstGroup(t, n);
    e := i + k;
    assert t[..k] == s[i..e];
    assert t[k + 1..] == s[e + 1..m];
  }

  /** Whenever the groups match from `i` up to `m`, the greedy match succeeds and ends no earlier than `m`. */
  lemma {:induction false} GroupsEndComplete(s: string, i: nat, m: nat, n: nat)
    requires i <= m <= |s| && n >= 1 && Groups(s[i..m], n)
    ensures GroupsEnd(s, i, n).Some? && m <= GroupsEnd(s, i, n).value
    decreases n
  {
    if n == 1 {
      DigitRunReaches(s, i, m);
    } else {
      var e := FirstGroupIn(s, i, m, n);
      GroupsEndStep(s, i, e, n);
      GroupsEndComplete(s, e + 1, m, n - 1);
    }
  }

  /** The leftmost index at or after `from` where a dotted quad starts. */
  function QuadIndex(s: string, from: nat): (r: Option<nat>)
    requires from <= |s|
    ensures r.Some? ==> from <= r.value < |s| && GroupsEnd(s, r.value, 4).Some?
    ensures r.Some? ==> forall k :: from <= k < r.value ==> GroupsEnd(s, k, 4).None?
    ensures r.None? ==> forall k :: from <= k <= |s| ==> GroupsEnd(s, k, 4).None?
    decreases |s| - from
  {
    if GroupsEnd(s, from, 4).Some? then Some(from)
    else if from == |s| then None
    else QuadIndex(s, from + 1)
  }

  /** `re.search(r"(\d+\.\d+\.\d+\.\d+)", line).group(0)`, or `None` when there is no match. */
  function FindQuad(line: string): (r: Option<string>)
    ensures r.Some? ==> IsDottedQuad(r.value)
  {
    match QuadIndex(line, 0)
    case None => None
    case Some(i) =>
      GroupsEndSound(line, i, 4);
      Some(line[i..GroupsEnd(line, i, 4).value])
  }

  /** A dotted quad anywhere in the line makes the search succeed no later than where that quad starts. */
  lemma QuadFoundNoLaterThan(line: string, i: nat, j: nat)
    requires i <= j <= |line| && IsDottedQuad(line[i..j])
    ensures QuadIndex(line, 0).Some? && QuadIndex(line, 0).value <= i
  {
    GroupsEndComplete(line, i, j, 4);
  }

  /** There is no match exactly when no substring of the line is a dotted quad. */
  lemma FindQuadNone(line: string)
    ensures FindQuad(line).None? <==> forall i, j :: 0 <= i <= j <= |line| ==> !IsDottedQuad(line[i..j])
  {
    forall i, j | 0 <= i <= j <= |line| && IsDottedQuad(line[i..j])
      ensures FindQuad(line).Some?
    {
      QuadFoundNoLaterThan(line, i, j);
    }
    if FindQuad(line).Some? {
      var i := QuadIndex(line, 0).value;
      var e := GroupsEnd(line, i, 4).value;
      GroupsEndSound(line, i, 4);
      assert IsDottedQuad(line[i..e]);
    }
  }

  /** No dotted quad starts before the index where the search stops. */
  lemma NoQuadBefore(line: string, i: nat)
    requires QuadIndex(line, 0) == Some(i)
    ensures forall k, j :: 0 <= k < i && k <= j <= |line| ==> !IsDottedQuad(line[k..j])
  {
    forall k, j | 0 <= k < i && k <= j <= |line| && IsDottedQuad(line[k..j]) ensures false {
      QuadFoundNoLaterThan(line, k, j);
    }
  }

  /** No dotted quad starting at `i` runs past the greedy match's end. */
  lemma NoLongerQuad(line: string, i: nat, e: nat)
    requires i <= |line| && GroupsEnd(line, i, 4) == Some(e)
    ensures forall j :: e < j <= |line| ==> !IsDottedQuad(line[i..j])
  {
    forall j | e < j <= |line| && IsDottedQuad(line[i..j]) ensures false {
      GroupsEndComplete(line, i, j, 4);
    }
  }

  /**
    What `FindQuad` returns is the regular expression's match: a dotted-quad substring
    of the line, starting leftmost and, among the quads starting there, longest.
    It is `line[i..e]`.
   */
  lemma FindQuadLeftmostLongest(line: string) returns (i: nat, e: nat)
    requires FindQuad(line).Some?
    ensures i <= e <= |line| && FindQuad(line) == Some(line[i..e]) && IsDottedQuad(line[i..e])
    ensures forall k, j :: 0 <= k < i && k <= j <= |line| ==> !IsDottedQuad(line[k..j])
    ensures forall j :: e < j <= |line| ==> !IsDottedQuad(line[i..j])
  {
    i := QuadIndex(line, 0).value;
    e := GroupsEnd(line, i, 4).value;
    GroupsEndSound(line, i, 4);
    NoQuadBefore(line, i);
    NoLongerQuad(line, i, e);
  }

  /** A dotted quad begins with a digit, so no quad is the word "Unknown". */
  lemma DottedQuadStartsWithDigit(t: string)
    requires IsDottedQuad(t)
    ensures t != [] && IsDigit(t[0])
  {
    var k := FirstGroup(t, 4);
    assert t[..k][0] == t[0];
  }
}
