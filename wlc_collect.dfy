/**
  The `main` flow of test.py: connect, disable paging, list the access points
  with the prefix, then for each one list its 802.11a clients and ask for each
  client's details, collecting `[mac, ip, ap]` rows for the CSV file.
  The WLC is an input: whether connecting succeeds, and the output of each
  command (`None` where `run_command` raises).
 */
module WlcCollect {
  import opened Wrappers
  import opened Text
  import opened WlcPatterns
  import opened WlcParsers

  /** The header row of the CSV file. */
  const Header: seq<string> := ["MAC Address", "IP Address", "AP Name"]

  /** The commands issued so far, the rows collected so far, and whether no command has raised. */
  datatype Trace = Trace(commands: seq<string>, rows: seq<seq<string>>, ok: bool)

  const Done: Trace := Trace([], [], true)

  /** Running `b` after `a`: nothing more happens once a command has raised. */
  function Then(a: Trace, b: Trace): Trace {
    if !a.ok then a else Trace(a.commands + b.commands, a.rows + b.rows, b.ok)
  }

  lemma ThenAssoc(a: Trace, b: Trace, c: Trace)
    ensures Then(Then(a, b), c) == Then(a, Then(b, c))
  {
    if a.ok && b.ok {
      assert (a.commands + b.commands) + c.commands == a.commands + (b.commands + c.commands);
      assert (a.rows + b.rows) + c.rows == a.rows + (b.rows + c.rows);
    }
  }

  lemma ThenDone(t: Trace)
    ensures Then(t, Done) == t && Then(Done, t) == t
  {
    assert t.commands + [] == t.commands && t.rows + [] == t.rows;
    assert [] + t.commands == t.commands && [] + t.rows == t.rows;
  }

  /** The IP address reported for a client: what the output of its detail command says. */
  function IpFor(mac: string, respond: string -> Option<string>): string {
    match respond(DetailCommand(mac))
    case None => Unknown
    case Some(output) => ClientIp(SplitLines(output))
  }

  /** The inner loop of `main` over the (MAC, AP) pairs of one access point. */
  function DetailsTrace(pairs: seq<(string, string)>, respond: string -> Option<string>): Trace
    decreases |pairs|
  {
    if pairs == [] then Done
    else
      var mac := pairs[0].0;
      var command := DetailCommand(mac);
      match respond(command)
      case None => Trace([command], [], false)
      case Some(output) =>
        Then(Trace([command], [[mac, ClientIp(SplitLines(output)), pairs[0].1]], true), DetailsTrace(pairs[1..], respond))
  }

  /** One access point's turn of the outer loop: its client listing, then the inner loop. */
  function ApTrace(ap: string, respond: string -> Option<string>): Trace {
    var command := ClientsCommand(ap);
    match respond(command)
    case None => Trace([command], [], false)
    case Some(output) => Then(Trace([command], [], true), DetailsTrace(ClientsForAp(SplitLines(output), ap), respond))
  }

  /** The outer loop of `main` over the access points. */
  function ApsTrace(aps: seq<string>, respond: string -> Option<string>): Trace
    decreases |aps|
  {
    if aps == [] then Done else Then(ApTrace(aps[0], respond), ApsTrace(aps[1..], respond))
  }

  /** How a run of `main` ends. */
  datatype Outcome =
    | ConnectFailed
    | Failed
    | NoAccessPoints
    | NoClientData
    | Saved(csv: seq<seq<string>>)

  /** The commands sent to the WLC, in order, and how the run ended. */
  datatype Session = Session(commands: seq<string>, outcome: Outcome)

  /** `main(ap_prefix)`. */
  function Collect(prefix: string, connected: bool, respond: string -> Option<string>): Session {
    if !connected then Session([], ConnectFailed)
    else if respond(PagingCommand).None? then Session([PagingCommand], Failed)
    else match respond(SummaryCommand)
      case None => Session([PagingCommand, SummaryCommand], Failed)
      case Some(summary) =>
        match ApNames(SplitLines(summary), prefix)
        case None => Session([PagingCommand, SummaryCommand], Failed)
        case Some(aps) =>
          if aps == [] then Session([PagingCommand, SummaryCommand], NoAccessPoints)
          else
            var t := ApsTrace(aps, respond);
            Session([PagingCommand, SummaryCommand] + t.commands,
              if !t.ok then Failed else if t.rows == [] then NoClientData else Saved([Header] + t.rows))
  }

  /** The inner loop of `main`, for the pairs of one access point. */
  method CollectDetails(pairs: seq<(string, string)>, respond: string -> Option<string>)
    returns (commands: seq<string>, rows: seq<seq<string>>, ok: bool)
    ensures Trace(commands, rows, ok) == DetailsTrace(pairs, respond)
  {
    commands, rows := [], [];
    var j := 0;
    ThenDone(DetailsTrace(pairs, respond));
    assert pairs[j..] == pairs;
    while j < |pairs|
      invariant 0 <= j <= |pairs|
      invariant DetailsTrace(pairs, respond) == Then(Trace(commands, rows, true), DetailsTrace(pairs[j..], respond))
    {
      var (mac, ap) := pairs[j];
      var command := DetailCommand(mac);
      assert pairs[j..][0] == pairs[j] && pairs[j..][1..] == pairs[j + 1..];
      var output := respond(command);
      if output.None? {
        commands := commands + [command];
        ok := false;
        return;
      }
      var ip := GetClientDetails(output.value);
      ghost var step := Trace([command], [[mac, ip, ap]], true);
      ThenAssoc(Trace(commands, rows, true), step, DetailsTrace(pairs[j + 1..], respond));
      commands, rows := commands + [command], rows + [[mac, ip, ap]];
      j := j + 1;
    }
    assert pairs[j..] == [];
    ThenDone(Trace(commands, rows, true));
    ok := true;
  }

  /** One access point's turn of the outer loop. */
  method CollectAp(apName: string, respond: string -> Option<string>)
    returns (commands: seq<string>, rows: seq<seq<string>>, ok: bool)
    ensures Trace(commands, rows, ok) == ApTrace(apName, respond)
  {
    var command := ClientsCommand(apName);
    var output := respond(command);
    if output.None? {
      return [command], [], false;
    }
    var pairs := GetClientsForAp(output.value, apName);
    var detailCommands, detailsOk;
    detailCommands, rows, detailsOk := CollectDetails(pairs, respond);
    commands, ok := [command] + detailCommands, detailsOk;
    assert [] + rows == rows;
  }

  /** The outer loop of `main`, over the access points found. */
  method CollectAps(aps: seq<string>, respond: string -> Option<string>)
    returns (commands: seq<string>, clientData: seq<seq<string>>, ok: bool)
    ensures Trace(commands, clientData, ok) == ApsTrace(aps, respond)
  {
    commands, clientData := [], [];
    var i := 0;
    ThenDone(ApsTrace(aps, respond));
    assert aps[i..] == aps;
    while i < |aps|
      invariant 0 <= i <= |aps|
      invariant ApsTrace(aps, respond) == Then(Trace(commands, clientData, true), ApsTrace(aps[i..], respond))
    {
      assert aps[i..][0] == aps[i] && aps[i..][1..] == aps[i + 1..];
      var apCommands, rows, apOk := CollectAp(aps[i], respond);
      ghost var step := Trace(apCommands, rows, apOk);
      ThenAssoc(Trace(commands, clientData, true), step, ApsTrace(aps[i + 1..], respond));
      commands, clientData := commands + apCommands, clientData + rows;
      if !apOk {
        ok := false;
        return;
      }
      i := i + 1;
    }
    assert aps[i..] == [];
    ThenDone(Trace(commands, clientData, true));
    ok := true;
  }

  /** `main(ap_prefix)` with the WLC as input: the commands it sends and how it ends. */
  method CollectClients(prefix: string, connected: bool, respond: string -> Option<string>)
    returns (commands: seq<string>, outcome: Outcome)
    ensures Session(commands, outcome) == Collect(prefix, connected, respond)
  {
    if !connected {
      return [], ConnectFailed;
    }
    commands := [PagingCommand];
    var paging := respond(PagingCommand);
    if paging.None? {
      return commands, Failed;
    }
    commands := commands + [SummaryCommand];
    var summary := respond(SummaryCommand);
    if summary.None? {
      return commands, Failed;
    }
    var apNames := GetApNames(summary.value, prefix);
    if apNames.None? {
      return commands, Failed;
    }
    var aps := apNames.value;
    if aps == [] {
      return commands, NoAccessPoints;
    }
    var apCommands, clientData, ok := CollectAps(aps, respond);
    commands := commands + apCommands;
    if !ok {
      outcome := Failed;
    } else if clientData == [] {
      outcome := NoClientData;
    } else {
      outcome := Saved([Header] + clientData);
    }
  }

  /** The row each client contributes, as a flat function of its pair. */
  function RowsOf(pairs: seq<(string, string)>, respond: string -> Option<string>): (rows: seq<seq<string>>)
    ensures |rows| == |pairs|
  {
    seq(|pairs|, k requires 0 <= k < |pairs| => [pairs[k].0, IpFor(pairs[k].0, respond), pairs[k].1])
  }

  /** The detail command each client gets. */
  function DetailCommands(pairs: seq<(string, string)>): (commands: seq<string>)
    ensures |commands| == |pairs|
  {
    seq(|pairs|, k requires 0 <= k < |pairs| => DetailCommand(pairs[k].0))
  }

  /** The clients of one access point: its listing's pairs, none where listing it raised. */
  function PairsOfAp(ap: string, respond: string -> Option<string>): seq<(string, string)> {
    match respond(ClientsCommand(ap))
    case None => []
    case Some(output) => ClientsForAp(SplitLines(output), ap)
  }

  /** All clients of the access points, in access-point order and then listing order. */
  function PairsOf(aps: seq<string>, respond: string -> Option<string>): (pairs: seq<(string, string)>)
    ensures forall k :: 0 <= k < |pairs| ==> IsMac(pairs[k].0) && pairs[k].1 in aps
  {
    if aps == [] then []
    else
      var here := PairsOfAp(aps[0], respond);
      var rest := PairsOf(aps[1..], respond);
      assert forall k :: 0 <= k < |rest| ==> rest[k].1 in aps by {
        forall k | 0 <= k < |rest| ensures rest[k].1 in aps {
          var j :| 0 <= j < |aps[1..]| && aps[1..][j] == rest[k].1;
          assert aps[j + 1] == rest[k].1;
        }
      }
      var all := here + rest;
      assert forall k :: 0 <= k < |all| ==> all[k] == if k < |here| then here[k] else rest[k - |here|];
      all
  }

  lemma RowsOfAppend(a: seq<(string, string)>, b: seq<(string, string)>, respond: string -> Option<string>)
    ensures RowsOf(a + b, respond) == RowsOf(a, respond) + RowsOf(b, respond)
  {
    var l := RowsOf(a + b, respond);
    var r := RowsOf(a, respond) + RowsOf(b, respond);
    forall k | 0 <= k < |l| ensures l[k] == r[k] {
      if k < |a| {
        assert (a + b)[k] == a[k];
      } else {
        assert (a + b)[k] == b[k - |a|];
      }
    }
  }

  /**
    The inner loop completes exactly when every detail command answers; then
    it has sent one detail command per client, in order, and made one row per
    client: its MAC address, its IP address and its access point.
   */
  lemma {:induction false} DetailsTraceComplete(pairs: seq<(string, string)>, respond: string -> Option<string>)
    ensures DetailsTrace(pairs, respond).ok <==> forall k :: 0 <= k < |pairs| ==> respond(DetailCommand(pairs[k].0)).Some?
    ensures DetailsTrace(pairs, respond).ok ==>
      DetailsTrace(pairs, respond).rows == RowsOf(pairs, respond) &&
      DetailsTrace(pairs, respond).commands == DetailCommands(pairs)
    decreases |pairs|
  {
    if pairs != [] {
      var tail := pairs[1..];
      DetailsTraceComplete(tail, respond);
      assert forall k :: 1 <= k < |pairs| ==> pairs[k] == tail[k - 1];
      if respond(DetailCommand(pairs[0].0)).Some? && DetailsTrace(tail, respond).ok {
        var mac := pairs[0].0;
        assert RowsOf(pairs, respond) == [[mac, IpFor(mac, respond), pairs[0].1]] + RowsOf(tail, respond);
        assert DetailCommands(pairs) == [DetailCommand(mac)] + DetailCommands(tail);
      }
    }
  }

  /**
    When the outer loop completes, its rows are the rows of all clients of all
    access points, in access-point order and then listing order.
   */
  lemma {:induction false} ApsTraceRows(aps: seq<string>, respond: string -> Option<string>)
    requires ApsTrace(aps, respond).ok
    ensures ApsTrace(aps, respond).rows == RowsOf(PairsOf(aps, respond), respond)
    decreases |aps|
  {
    if aps != [] {
      var here := PairsOfAp(aps[0], respond);
      var details := DetailsTrace(here, respond);
      var rest := ApsTrace(aps[1..], respond);
      assert respond(ClientsCommand(aps[0])).Some?;
      assert ApTrace(aps[0], respond) == Then(Trace([ClientsCommand(aps[0])], [], true), details);
      assert details.ok && rest.ok;
      DetailsTraceComplete(here, respond);
      ApsTraceRows(aps[1..], respond);
      RowsOfAppend(here, PairsOf(aps[1..], respond), respond);
      assert [] + details.rows == details.rows;
    }
  }

  /** The commands of all access points: each one's client listing, then a detail command per client. */
  function CommandsOf(aps: seq<string>, respond: string -> Option<string>): seq<string>
    decreases |aps|
  {
    if aps == [] then []
    else [ClientsCommand(aps[0])] + DetailCommands(PairsOfAp(aps[0], respond)) + CommandsOf(aps[1..], respond)
  }

  /** Extending a prefix on the left keeps it a prefix. */
  lemma PrefixAppend(x: seq<string>, a: seq<string>, b: seq<string>)
    requires a <= b
    ensures x + a <= x + b
  {
    assert (x + b)[..|x + a|] == x + b[..|a|];
  }

  /** The inner loop sends the detail commands in order, stopping after the first that raises. */
  lemma {:induction false} DetailsTraceCommands(pairs: seq<(string, string)>, respond: string -> Option<string>)
    ensures DetailsTrace(pairs, respond).commands <= DetailCommands(pairs)
    decreases |pairs|
  {
    if pairs != [] {
      var command := DetailCommand(pairs[0].0);
      var tail := DetailsTrace(pairs[1..], respond);
      DetailsTraceCommands(pairs[1..], respond);
      assert DetailCommands(pairs) == [command] + DetailCommands(pairs[1..]);
      PrefixAppend([command], tail.commands, DetailCommands(pairs[1..]));
    }
  }

  /**
    The outer loop sends a prefix of the commands of all access points, and all
    of them when it completes.
   */
  lemma {:induction false} ApsTraceCommands(aps: seq<string>, respond: string -> Option<string>)
    ensures ApsTrace(aps, respond).commands <= CommandsOf(aps, respond)
    ensures ApsTrace(aps, respond).ok ==> ApsTrace(aps, respond).commands == CommandsOf(aps, respond)
    decreases |aps|
  {
    if aps != [] {
      var command := ClientsCommand(aps[0]);
      var here := PairsOfAp(aps[0], respond);
      var mine := [command] + DetailCommands(here);
      var t := ApTrace(aps[0], respond);
      var rest := ApsTrace(aps[1..], respond);
      ApsTraceCommands(aps[1..], respond);
      assert CommandsOf(aps, respond) == mine + CommandsOf(aps[1..], respond);
      if respond(command).Some? {
        var details := DetailsTrace(here, respond);
        DetailsTraceCommands(here, respond);
        DetailsTraceComplete(here, respond);
        assert t.commands == [command] + details.commands && t.ok == details.ok;
        PrefixAppend([command], details.commands, DetailCommands(here));
        if t.ok {
          assert t.commands == mine;
          PrefixAppend(mine, rest.commands, CommandsOf(aps[1..], respond));
        } else {
          assert mine <= CommandsOf(aps, respond);
        }
      } else {
        assert t.commands == [command];
      }
    }
  }

  /** The AP list a run works on: the summary's parse, once paging and the summary have answered. */
  predicate FoundAps(prefix: string, connected: bool, respond: string -> Option<string>, aps: seq<string>) {
    && connected && respond(PagingCommand).Some? && respond(SummaryCommand).Some?
    && ApNames(SplitLines(respond(SummaryCommand).value), prefix) == Some(aps)
  }

  /**
    Command order: paging is disabled first, then the summary is requested,
    then comes the first access point's client listing.
   */
  lemma CollectCommandOrder(prefix: string, connected: bool, respond: string -> Option<string>)
    ensures var c := Collect(prefix, connected, respond).commands;
      && (connected <==> c != [])
      && (c != [] ==> c[0] == PagingCommand)
      && (|c| >= 2 ==> c[1] == SummaryCommand)
      && (forall aps :: FoundAps(prefix, connected, respond, aps) && aps != [] ==> |c| > 2 && c[2] == ClientsCommand(aps[0]))
  {
    forall aps | FoundAps(prefix, connected, respond, aps) && aps != []
      ensures |Collect(prefix, connected, respond).commands| > 2
      ensures Collect(prefix, connected, respond).commands[2] == ClientsCommand(aps[0])
    {
      var t := ApsTrace(aps, respond);
      assert t.commands != [] && t.commands[0] == ClientsCommand(aps[0]);
    }
  }

  /**
    The commands a run sends once the summary has been parsed: paging, the
    summary, then the listing of each access point followed by the detail
    commands of its clients, in order. A run that fails stops partway through
    that sequence; any other run sends all of it.
   */
  lemma CollectCommands(prefix: string, connected: bool, respond: string -> Option<string>, aps: seq<string>)
    requires FoundAps(prefix, connected, respond, aps)
    ensures var c := Collect(prefix, connected, respond).commands;
      && [PagingCommand, SummaryCommand] <= c
      && c <= [PagingCommand, SummaryCommand] + CommandsOf(aps, respond)
    ensures Collect(prefix, connected, respond).outcome != Failed ==>
      Collect(prefix, connected, respond).commands == [PagingCommand, SummaryCommand] + CommandsOf(aps, respond)
  {
    var head := [PagingCommand, SummaryCommand];
    if aps == [] {
      assert head + CommandsOf(aps, respond) == head;
    } else {
      var t := ApsTrace(aps, respond);
      ApsTraceCommands(aps, respond);
      PrefixAppend(head, t.commands, CommandsOf(aps, respond));
      assert (head + t.commands)[..2] == head;
    }
  }

  /** Without access points the run sends only the paging and summary commands and writes no file. */
  lemma CollectNoAccessPoints(prefix: string, connected: bool, respond: string -> Option<string>)
    ensures Collect(prefix, connected, respond).outcome == NoAccessPoints <==> FoundAps(prefix, connected, respond, [])
    ensures Collect(prefix, connected, respond).outcome == NoAccessPoints ==>
      Collect(prefix, connected, respond).commands == [PagingCommand, SummaryCommand]
  {
  }

  /**
    A CSV file is written only when there are rows; it starts with the header,
    followed by one `[mac, ip, ap]` row per client of the access points found,
    in access-point order and then listing order.
   */
  lemma CollectSavedRows(prefix: string, connected: bool, respond: string -> Option<string>, aps: seq<string>)
    requires FoundAps(prefix, connected, respond, aps)
    ensures Collect(prefix, connected, respond).outcome.Saved? ==>
      var csv := Collect(prefix, connected, respond).outcome.csv;
      && |csv| >= 2 && csv[0] == Header
      && csv[1..] == RowsOf(PairsOf(aps, respond), respond)
    ensures Collect(prefix, connected, respond).outcome == NoClientData ==> PairsOf(aps, respond) == []
  {
    if aps != [] && ApsTrace(aps, respond).ok {
      ApsTraceRows(aps, respond);
      var csv := [Header] + ApsTrace(aps, respond).rows;
      assert csv[1..] == ApsTrace(aps, respond).rows;
    }
  }

  /**
    Every row of the CSV file is a MAC address found in some listing, the IP
    address its detail command reported (a dotted quad or the sentinel), and an
    access point of the summary.
   */
  lemma RowShape(aps: seq<string>, respond: string -> Option<string>, k: nat)
    requires k < |PairsOf(aps, respond)|
    ensures var row := RowsOf(PairsOf(aps, respond), respond)[k];
      && |row| == 3 && IsMac(row[0]) && (row[1] == Unknown || IsDottedQuad(row[1])) && row[2] in aps
  {
  }
}
