/**
  The three text parsers of test.py and the commands they issue: AP names from
  `show ap summary`, client MAC addresses from `show client ap 802.11a <ap>`, and
  a client's IP address from `show client detail <mac>`. Each parser is a method
  looping over `output.splitlines()`, proved equal to a recursive function over
  the lines, and the properties are lemmas about those functions.
 */
module WlcParsers {
  import opened Wrappers
  import opened Text
  import opened WlcPatterns

  const PagingCommand: string := "config paging disable"
  const SummaryCommand: string := "show ap summary"

  /** The per-AP command of `get_clients_for_ap`. */
  function ClientsCommand(ap: string): string {
    "show client ap 802.11a " + ap
  }

  /** The per-client command of `get_client_details`. */
  function DetailCommand(mac: string): string {
    "show client detail " + mac
  }

  /** The sentinel IP address reported when none is found. */
  const Unknown: string := "Unknown"

  /** The marker that identifies the line holding a client's IP address. */
  const IpMarker: string := "IP Address"

  /** `re.match(ap_prefix, line.strip())`, with the prefix read as literal text. */
  predicate Selected(line: string, prefix: string) {
    prefix <= Strip(line)
  }

  /** Prepending collected names to a result that may have failed. */
  function Prepend(acc: seq<string>, r: Option<seq<string>>): Option<seq<string>> {
    match r
    case None => None
    case Some(names) => Some(acc + names)
  }

  /**
    The AP names `get_ap_names` collects from the summary lines: the first token of each
    selected line, in line order. `None` where `line.split()[0]` raises `IndexError`,
    which happens for a selected line that is blank.
   */
  function ApNames(lines: seq<string>, prefix: string): (r: Option<seq<string>>)
    ensures r.Some? ==> |r.value| <= |lines|
    ensures r.Some? ==> forall k :: 0 <= k < |r.value| ==> r.value[k] != [] && NoSpace(r.value[k])
  {
    if lines == [] then Some([])
    else
      FirstTokenShape(lines[0]);
      var rest := ApNames(lines[1..], prefix);
      if !Selected(lines[0], prefix) then rest
      else
        match FirstToken(lines[0])
        case None => None
        case Some(name) =>
          match rest
          case None => None
          case Some(names) =>
            assert forall k :: 1 <= k < |names| + 1 ==> ([name] + names)[k] == names[k - 1];
            Some([name] + names)
  }

  /** `get_ap_names(ssh, ap_prefix)` given the output of `show ap summary`. */
  method GetApNames(output: string, prefix: string) returns (names: Option<seq<string>>)
    ensures names == ApNames(SplitLines(output), prefix)
  {
    var lines := SplitLines(output);
    var apNames: seq<string> := [];
    var i := 0;
    assert lines[i..] == lines;
    assert forall r: seq<string> :: [] + r == r;
    while i < |lines|
      invariant 0 <= i <= |lines|
      invariant ApNames(lines, prefix) == Prepend(apNames, ApNames(lines[i..], prefix))
    {
      assert lines[i..][0] == lines[i] && lines[i..][1..] == lines[i + 1..];
      var line := lines[i];
      if Selected(line, prefix) {
        var name := FirstToken(line);
        if name.None? {
          return None;
        }
        assert forall rest :: apNames + ([name.value] + rest) == (apNames + [name.value]) + rest;
        apNames := apNames + [name.value];
      }
      i := i + 1;
    }
    assert lines[i..] == [] && apNames + [] == apNames;
    names := Some(apNames);
  }

  /** Joining the results of two runs of lines, failing if either failed. */
  function Concat(a: Option<seq<string>>, b: Option<seq<string>>): Option<seq<string>> {
    match a
    case None => None
    case Some(x) => Prepend(x, b)
  }

  /** The names of a summary are the names of its parts in order: lines are never reordered or merged. */
  lemma {:induction false} ApNamesAppend(a: seq<string>, b: seq<string>, prefix: string)
    ensures ApNames(a + b, prefix) == Concat(ApNames(a, prefix), ApNames(b, prefix))
  {
    if a == [] {
      assert a + b == b;
      match ApNames(b, prefix)
      case None =>
      case Some(y) => assert [] + y == y;
    } else {
      assert (a + b)[0] == a[0] && (a + b)[1..] == a[1..] + b;
      ApNamesAppend(a[1..], b, prefix);
      if Selected(a[0], prefix) && FirstToken(a[0]).Some? {
        var name := FirstToken(a[0]).value;
        match ApNames(a[1..], prefix)
        case None =>
        case Some(x) =>
          match ApNames(b, prefix)
          case None =>
          case Some(y) => assert [name] + (x + y) == ([name] + x) + y;
      }
    }
  }

  /** One line contributes its first token when selected and nothing otherwise; a selected blank line fails. */
  lemma ApNamesOfLine(line: string, prefix: string)
    ensures ApNames([line], prefix) ==
      if !Selected(line, prefix) then Some([])
      else match FirstToken(line) case None => None case Some(name) => Some([name])
  {
    assert [line][1..] == [];
    assert forall name: string :: [name] + [] == [name];
  }

  /** Parsing fails exactly for the empty prefix and a summary with a blank line. */
  lemma {:induction false} ApNamesFails(lines: seq<string>, prefix: string)
    ensures ApNames(lines, prefix).None? <==> prefix == [] && exists k :: 0 <= k < |lines| && AllSpace(lines[k])
  {
    if lines != [] {
      ApNamesFails(lines[1..], prefix);
      if prefix == [] {
        assert Selected(lines[0], prefix);
        forall k | 1 <= k < |lines| ensures lines[k] == lines[1..][k - 1] {}
      } else {
        StripTrimmed(lines[0]);
      }
      FirstTokenShape(lines[0]);
    }
  }

  /**
    With a non-empty, whitespace-free prefix parsing never fails and every AP
    name starts with the prefix.
   */
  lemma {:induction false} ApNamesHavePrefix(lines: seq<string>, prefix: string)
    requires prefix != [] && NoSpace(prefix)
    ensures ApNames(lines, prefix).Some?
    ensures forall k :: 0 <= k < |ApNames(lines, prefix).value| ==> prefix <= ApNames(lines, prefix).value[k]
  {
    if lines != [] {
      ApNamesHavePrefix(lines[1..], prefix);
      if Selected(lines[0], prefix) {
        PrefixOfStrippedIsPrefixOfToken(lines[0], prefix);
        var name := FirstToken(lines[0]).value;
        var rest := ApNames(lines[1..], prefix).value;
        assert ApNames(lines, prefix).value == [name] + rest;
      }
    }
  }

  /**
    The (MAC, AP) pairs `get_clients_for_ap` collects: at most one per line,
    the leftmost MAC address of the line, paired with the AP it was asked about.
   */
  function ClientsForAp(lines: seq<string>, ap: string): (r: seq<(string, string)>)
    ensures |r| <= |lines|
    ensures forall k :: 0 <= k < |r| ==> IsMac(r[k].0) && r[k].1 == ap
  {
    if lines == [] then []
    else
      var rest := ClientsForAp(lines[1..], ap);
      match FindMac(lines[0])
      case None => rest
      case Some(mac) =>
        assert forall k :: 1 <= k < |rest| + 1 ==> ([(mac, ap)] + rest)[k] == rest[k - 1];
        [(mac, ap)] + rest
  }

  /** `get_clients_for_ap(ssh, ap_name)` given the output of `show client ap 802.11a <ap>`. */
  method GetClientsForAp(output: string, ap: string) returns (pairs: seq<(string, string)>)
    ensures pairs == ClientsForAp(SplitLines(output), ap)
  {
    var lines := SplitLines(output);
    pairs := [];
    var i := 0;
    while i < |lines|
      invariant 0 <= i <= |lines|
      invariant ClientsForAp(lines, ap) == pairs + ClientsForAp(lines[i..], ap)
    {
      assert lines[i..][1..] == lines[i + 1..];
      var mac := FindMac(lines[i]);
      if mac.Some? {
        pairs := pairs + [(mac.value, ap)];
      }
      i := i + 1;
    }
    assert lines[i..] == [];
  }

  /** The pairs of a listing are the pairs of its parts in order. */
  lemma {:induction false} ClientsForApAppend(a: seq<string>, b: seq<string>, ap: string)
    ensures ClientsForAp(a + b, ap) == ClientsForAp(a, ap) + ClientsForAp(b, ap)
  {
    if a == [] {
      assert a + b == b;
    } else {
      assert (a + b)[0] == a[0] && (a + b)[1..] == a[1..] + b;
      ClientsForApAppend(a[1..], b, ap);
    }
  }

  /** One line yields the pair of its leftmost MAC address, or nothing. */
  lemma ClientsForApOfLine(line: string, ap: string)
    ensures ClientsForAp([line], ap) == match FindMac(line) case None => [] case Some(mac) => [(mac, ap)]
  {
    assert [line][1..] == [];
  }

  /** Every collected MAC address is the leftmost MAC address of some line of the listing. */
  lemma {:induction false} ClientMacsComeFromLines(lines: seq<string>, ap: string, k: nat)
    requires k < |ClientsForAp(lines, ap)|
    ensures exists j :: 0 <= j < |lines| && FindMac(lines[j]) == Some(ClientsForAp(lines, ap)[k].0)
  {
    assert lines != [];
    var rest := ClientsForAp(lines[1..], ap);
    match FindMac(lines[0])
    case None =>
      ClientMacsComeFromLines(lines[1..], ap, k);
      var j :| 0 <= j < |lines[1..]| && FindMac(lines[1..][j]) == Some(rest[k].0);
      assert lines[j + 1] == lines[1..][j];
    case Some(mac) =>
      if k > 0 {
        ClientMacsComeFromLines(lines[1..], ap, k - 1);
        var j :| 0 <= j < |lines[1..]| && FindMac(lines[1..][j]) == Some(rest[k - 1].0);
        assert lines[j + 1] == lines[1..][j];
      } else {
        assert FindMac(lines[0]) == Some(ClientsForAp(lines, ap)[0].0);
      }
  }

  /**
    The IP address `get_client_details` reports: the scan stops at the first line
    containing the marker; that line's first dotted quad, or the sentinel.
   */
  function ClientIp(lines: seq<string>): (ip: string)
    ensures ip == Unknown || IsDottedQuad(ip)
  {
    if lines == [] then Unknown
    else if Contains(lines[0], IpMarker) then
      match FindQuad(lines[0])
      case None => Unknown
      case Some(quad) => quad
    else ClientIp(lines[1..])
  }

  /** `get_client_details(ssh, mac_address)` given the output of `show client detail <mac>`. */
  method GetClientDetails(output: string) returns (ip: string)
    ensures ip == ClientIp(SplitLines(output))
  {
    var lines := SplitLines(output);
    ip := Unknown;
    var i := 0;
    while i < |lines|
      invariant 0 <= i <= |lines|
      invariant ip == Unknown
      invariant ClientIp(lines) == ClientIp(lines[i..])
    {
      assert lines[i..][0] == lines[i] && lines[i..][1..] == lines[i + 1..];
      if Contains(lines[i], IpMarker) {
        var m := FindQuad(lines[i]);
        if m.Some? {
          ip := m.value;
        }
        break;
      }
      i := i + 1;
    }
  }

  /** The result is decided by the first line containing the marker alone. */
  lemma {:induction false} ClientIpFirstMarker(lines: seq<string>, k: nat)
    requires k < |lines| && Contains(lines[k], IpMarker)
    requires forall j :: 0 <= j < k ==> !Contains(lines[j], IpMarker)
    ensures ClientIp(lines) == match FindQuad(lines[k]) case None => Unknown case Some(quad) => quad
  {
    if k > 0 {
      assert !Contains(lines[0], IpMarker);
      assert lines[1..][k - 1] == lines[k];
      ClientIpFirstMarker(lines[1..], k - 1);
    }
  }

  /** Without any line containing the marker the result is the sentinel. */
  lemma {:induction false} ClientIpWithoutMarker(lines: seq<string>)
    requires forall j :: 0 <= j < |lines| ==> !Contains(lines[j], IpMarker)
    ensures ClientIp(lines) == Unknown
  {
    if lines != [] {
      assert !Contains(lines[0], IpMarker);
      ClientIpWithoutMarker(lines[1..]);
    }
  }

  /**
    The scan stops at the first marker line even when that line has no dotted quad:
    whatever follows, the result is then the sentinel.
   */
  lemma ClientIpStopsAtMarker(first: string, later: seq<string>)
    requires Contains(first, IpMarker) && FindQuad(first).None?
    ensures ClientIp([first] + later) == Unknown
  {
    assert ([first] + later)[0] == first;
  }

  /** The sentinel cannot be confused with an address: it is not a dotted quad. */
  lemma UnknownIsNotAnAddress()
    ensures !IsDottedQuad(Unknown)
  {
    if IsDottedQuad(Unknown) {
      DottedQuadStartsWithDigit(Unknown);
    }
  }
}
