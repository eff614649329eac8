/**
  fogrs-core/src/service_request_manager.rs: the forwarding table, which packets consult and updates extend, and the
  set of identifiers whose answer has already passed.
 */
module ServiceRequestManager {
  import opened Wrappers
  import opened PacketStructs
  import opened RoutingManager

  /** The sending half of a channel to a connection. */
  type Channel = nat

  datatype TopicState = RUNNING | PAUSED | DELETED

  datatype FibConnection = FibConnection(
    state: TopicState, kind: FibConnectionType, tx: Channel, interface: Option<string>, address: Option<string>)

  datatype ChangeAction = ADD | PAUSE | PAUSEADD | RESUME | DELETE | STATE

  datatype FibStateChange = FibStateChange(
    action: ChangeAction, kind: FibConnectionType, name: GdpName,
    destination: Option<Channel>, interface: Option<string>, address: Option<string>)

  type BindingTable = Option<map<string, string>>

  /** `alive` is false once a panic has ended the handler. */
  datatype State = State(
    table: map<GdpName, seq<FibConnection>>, processed: set<Option<GdpName>>, requested: set<GdpName>, alive: bool)

  /** What the loop takes next: a packet, and the name of the default interface if there is one, or an update. */
  datatype Event = Packets(packet: Packet, default: Option<string>) | Updates(change: FibStateChange)

  // ----- Updates -----

  predicate IsReceiver(k: FibConnectionType) {
    k == RECEIVER || k == REQUESTRECEIVER || k == RESPONSERECEIVER
  }

  /** A connection over an interface other than "ros" must be to an address that the table binds it to. */
  predicate Bound(binding: BindingTable, interface: string, address: string) {
    || binding.None? || interface == "ros"
    || (interface in binding.value && binding.value[interface] <= address)
  }

  datatype Verdict = Ignored | Crash | Accepted(connection: FibConnection)

  function Judge(binding: BindingTable, c: FibStateChange): Verdict {
    if c.action != ADD || !IsReceiver(c.kind) then Ignored
    else if c.interface.None? || c.address.None? then Crash
    else if !Bound(binding, c.interface.value, c.address.value) then Ignored
    else if c.destination.None? then Crash
    else Accepted(FibConnection(RUNNING, c.kind, c.destination.value, c.interface, c.address))
  }

  function Receivers(s: State, n: GdpName): seq<FibConnection> {
    if n in s.table then s.table[n] else []
  }

  function Update(binding: BindingTable, s: State, c: FibStateChange): State {
    match Judge(binding, c)
    case Ignored => s
    case Crash => s.(alive := false)
    case Accepted(connection) => s.(table := s.table[c.name := Receivers(s, c.name) + [connection]])
  }

  // ----- Packets -----

  /** Whether a running connection takes packets like this one. */
  predicate Takes(c: FibConnection, p: Packet, default: Option<string>) {
    c.state == RUNNING &&
    match p.action
    case Forward => c.kind == RECEIVER
    case Request =>
      c.kind == REQUESTRECEIVER && default.Some? && (c.interface == Some("ros") || c.interface == default)
    case Response => c.kind == RESPONSERECEIVER
    case _ => false
  }

  function Takers(cs: seq<FibConnection>, p: Packet, default: Option<string>): seq<Channel> {
    if |cs| == 0 then []
    else Takers(cs[..|cs| - 1], p, default) +
         if Takes(cs[|cs| - 1], p, default) then [cs[|cs| - 1].tx] else []
  }

  /** Where a packet goes that nothing keeps from going. */
  function Recipients(s: State, p: Packet, default: Option<string>): seq<Channel> {
    if !s.alive || p.guid in s.processed then [] else Takers(Receivers(s, p.gdpname), p, default)
  }

  /** Where it goes indeed: a request without an identifier stops the handler after its first recipient. */
  function Sent(s: State, p: Packet, default: Option<string>): seq<Channel> {
    var all := Recipients(s, p, default);
    if !Fatal(s, p, default) then all
    else if p.action == Request && |all| > 0 then [all[0]]
    else []
  }

  /** The panics: a response to nothing that was requested, and a request or response without an identifier. */
  predicate Fatal(s: State, p: Packet, default: Option<string>) {
    match p.action
    case Request => p.guid.None? && (p.guid in s.processed || Recipients(s, p, default) != [])
    case Response => p.gdpname !in s.requested || p.guid.None?
    case _ => false
  }

  function Handle(s: State, p: Packet, default: Option<string>): State {
    var requested := if p.action == Request && p.guid !in s.processed then s.requested + {p.gdpname} else s.requested;
    if Fatal(s, p, default) then s.(requested := requested, alive := false)
    else
      match p.action
      case Forward => if Recipients(s, p, default) != [] then s.(processed := s.processed + {p.guid}) else s
      case Response => s.(processed := s.processed + {p.guid})
      case _ => s.(requested := requested)
  }

  function Next(binding: BindingTable, s: State, e: Event): State {
    if !s.alive then s
    else match e
      case Packets(p, default) => Handle(s, p, default)
      case Updates(c) => Update(binding, s, c)
  }

  function Init(): State {
    State(map[], {}, {}, true)
  }

  function After(binding: BindingTable, events: seq<Event>): State {
    if |events| == 0 then Init()
    else Next(binding, After(binding, events[..|events| - 1]), events[|events| - 1])
  }

  // ----- Runs -----

  function Before(binding: BindingTable, events: seq<Event>, i: nat): State
    requires i <= |events|
  {
    After(binding, events[..i])
  }

  lemma BeforeNext(binding: BindingTable, events: seq<Event>, i: nat)
    requires i < |events|
    ensures Before(binding, events, i + 1) == Next(binding, Before(binding, events, i), events[i])
  {
    assert events[..i + 1][..i] == events[..i];
  }

  lemma {:induction false} AliveBefore(binding: BindingTable, events: seq<Event>, i: nat, j: nat)
    requires i <= j <= |events| && Before(binding, events, j).alive
    ensures Before(binding, events, i).alive
    decreases j - i
  {
    if i < j {
      BeforeNext(binding, events, j - 1);
      AliveBefore(binding, events, i, j - 1);
    }
  }

  /** The channels that the packet taken `i`-th went to. */
  function SentTo(binding: BindingTable, events: seq<Event>, i: nat): seq<Channel>
    requires i < |events| && events[i].Packets?
  {
    Sent(Before(binding, events, i), events[i].packet, events[i].default)
  }

  // ----- The first answer wins -----

  /** The packet taken `i`-th is an answer: a response, or a forwarded packet that somebody took. */
  predicate Answers(binding: BindingTable, events: seq<Event>, i: nat, guid: Option<GdpName>)
    requires i < |events|
  {
    && events[i].Packets? && events[i].packet.guid == guid
    && Before(binding, events, i + 1).alive
    && (events[i].packet.action == Response ||
        (events[i].packet.action == Forward && SentTo(binding, events, i) != []))
  }

  lemma ProcessedStep(binding: BindingTable, events: seq<Event>, i: nat, guid: Option<GdpName>)
    requires i < |events|
    ensures guid in Before(binding, events, i + 1).processed <==>
              guid in Before(binding, events, i).processed || Answers(binding, events, i, guid)
  {
    BeforeNext(binding, events, i);
  }

  /** In every run the identifiers that count as processed are exactly those of the answers handled so far. */
  lemma {:induction false} ProcessedMeansAnswered(
    binding: BindingTable, events: seq<Event>, n: nat, guid: Option<GdpName>)
    requires n <= |events|
    ensures guid in Before(binding, events, n).processed <==>
              exists i :: 0 <= i < n && Answers(binding, events, i, guid)
    decreases n
  {
    if n > 0 {
      ProcessedMeansAnswered(binding, events, n - 1, guid);
      ProcessedStep(binding, events, n - 1, guid);
    }
  }

  /** After the first answer nothing with its identifier goes out: no request, no response, no forwarded packet. */
  lemma FirstAnswerWins(binding: BindingTable, events: seq<Event>, i: nat, j: nat)
    requires i < j < |events| && events[j].Packets? && Answers(binding, events, i, events[j].packet.guid)
    ensures SentTo(binding, events, j) == []
  {
    ProcessedMeansAnswered(binding, events, j, events[j].packet.guid);
  }

  /** Of the responses and forwarded packets with one identifier at most one goes out in a run. */
  lemma OneAnswerGoesOut(binding: BindingTable, events: seq<Event>, i: nat, j: nat)
    requires i < |events| && j < |events| && events[i].Packets? && events[j].Packets?
    requires events[i].packet.guid == events[j].packet.guid
    requires events[i].packet.action == Response || events[i].packet.action == Forward
    requires events[j].packet.action == Response || events[j].packet.action == Forward
    requires Before(binding, events, |events|).alive
    requires SentTo(binding, events, i) != [] && SentTo(binding, events, j) != []
    ensures i == j
  {
    AliveBefore(binding, events, i + 1, |events|);
    AliveBefore(binding, events, j + 1, |events|);
    if i < j {
      FirstAnswerWins(binding, events, i, j);
    } else if j < i {
      FirstAnswerWins(binding, events, j, i);
    }
  }

  // ----- The table is the history of updates -----

  /** The connections that the updates among the events add for a name, in order. */
  function Added(binding: BindingTable, events: seq<Event>, n: GdpName): seq<FibConnection> {
    if |events| == 0 then []
    else
      var e := events[|events| - 1];
      Added(binding, events[..|events| - 1], n) +
      if e.Updates? && e.change.name == n && Judge(binding, e.change).Accepted?
      then [Judge(binding, e.change).connection] else []
  }

  lemma UpdateStep(binding: BindingTable, s: State, e: Event, n: GdpName)
    requires Next(binding, s, e).alive
    ensures s.alive
    ensures Receivers(Next(binding, s, e), n) == Receivers(s, n) +
              if e.Updates? && e.change.name == n && Judge(binding, e.change).Accepted?
              then [Judge(binding, e.change).connection] else []
  {
  }

  /** In every run that has not panicked a name's receivers are exactly its accepted updates in order. */
  lemma {:induction false} TableIsHistory(binding: BindingTable, events: seq<Event>, n: GdpName)
    requires After(binding, events).alive
    ensures Receivers(After(binding, events), n) == Added(binding, events, n)
  {
    if |events| > 0 {
      var before, e := events[..|events| - 1], events[|events| - 1];
      UpdateStep(binding, After(binding, before), e, n);
      TableIsHistory(binding, before, n);
    }
  }

  /** An interface other than "ros" needs an entry in the binding table, if there is a table, that the address starts
      with. */
  predicate Allows(binding: BindingTable, interface: string, address: string) {
    binding.Some? && interface != "ros" ==> interface in binding.value && binding.value[interface] <= address
  }

  /** Whatever was added runs, is of a receiver type, and has an interface that the binding table allows. */
  predicate Fit(binding: BindingTable, c: FibConnection) {
    c.state == RUNNING && (c.kind == RECEIVER || c.kind == REQUESTRECEIVER || c.kind == RESPONSERECEIVER)
    && c.interface.Some? && c.address.Some? && Allows(binding, c.interface.value, c.address.value)
  }

  lemma {:induction false} AddedAreFit(binding: BindingTable, events: seq<Event>, n: GdpName)
    ensures forall c :: c in Added(binding, events, n) ==> Fit(binding, c)
  {
    if |events| > 0 {
      AddedAreFit(binding, events[..|events| - 1], n);
    }
  }

  /** A packet goes exactly to the added connections of its name that take it, in the order of their updates, unless
      its identifier was answered before. */
  lemma RecipientsFollowHistory(binding: BindingTable, events: seq<Event>, i: nat)
    requires i < |events| && events[i].Packets? && Before(binding, events, i + 1).alive
    ensures var p, default := events[i].packet, events[i].default;
            SentTo(binding, events, i) ==
              if AnsweredBefore(binding, events, i, p.guid) then []
              else Takers(Added(binding, events[..i], p.gdpname), p, default)
  {
    AliveBefore(binding, events, i, i + 1);
    BeforeNext(binding, events, i);
    ProcessedMeansAnswered(binding, events, i, events[i].packet.guid);
    TableIsHistory(binding, events[..i], events[i].packet.gdpname);
  }

  lemma {:induction false} TakersTake(cs: seq<FibConnection>, p: Packet, default: Option<string>, t: Channel)
    ensures t in Takers(cs, p, default) <==> exists c :: c in cs && Takes(c, p, default) && c.tx == t
  {
    if |cs| > 0 {
      TakersTake(cs[..|cs| - 1], p, default, t);
      assert forall c :: c in cs <==> c in cs[..|cs| - 1] || c == cs[|cs| - 1];
    }
  }

  /** A request only goes to connections of its name over "ros" or over the default interface. */
  lemma RequestsStayOnOneInterface(binding: BindingTable, events: seq<Event>, i: nat, t: Channel)
    requires i < |events| && events[i].Packets? && events[i].packet.action == Request
    requires Before(binding, events, i + 1).alive && t in SentTo(binding, events, i)
    ensures exists c :: c in Added(binding, events[..i], events[i].packet.gdpname) && c.tx == t
                        && c.kind == REQUESTRECEIVER && (c.interface == Some("ros") || c.interface == events[i].default)
  {
    RecipientsFollowHistory(binding, events, i);
    TakersTake(Added(binding, events[..i], events[i].packet.gdpname), events[i].packet, events[i].default, t);
  }

  /** The event adds a connection that takes packets like this one. */
  predicate Offers(binding: BindingTable, e: Event, p: Packet, default: Option<string>) {
    && e.Updates? && e.change.action == ADD && e.change.name == p.gdpname
    && e.change.destination.Some? && e.change.interface.Some? && e.change.address.Some?
    && Allows(binding, e.change.interface.value, e.change.address.value)
    && (|| (p.action == Forward && e.change.kind == RECEIVER)
        || (p.action == Response && e.change.kind == RESPONSERECEIVER)
        || (p.action == Request && e.change.kind == REQUESTRECEIVER && default.Some? &&
            (e.change.interface.value == "ros" || e.change.interface == default)))
  }

  /** The channels that events have offered to packets like this one, in order. */
  function Offered(binding: BindingTable, events: seq<Event>, p: Packet, default: Option<string>): seq<Channel> {
    if |events| == 0 then []
    else
      var e := events[|events| - 1];
      Offered(binding, events[..|events| - 1], p, default) +
      if Offers(binding, e, p, default) then [e.change.destination.value] else []
  }

  lemma TakersOfOneMore(cs: seq<FibConnection>, c: FibConnection, p: Packet, default: Option<string>)
    ensures Takers(cs + [c], p, default) == Takers(cs, p, default) + if Takes(c, p, default) then [c.tx] else []
  {
    assert (cs + [c])[..|cs|] == cs;
  }

  lemma OfferIsTaken(binding: BindingTable, e: Event, p: Packet, default: Option<string>)
    ensures Offers(binding, e, p, default) <==>
              && e.Updates? && e.change.name == p.gdpname && Judge(binding, e.change).Accepted?
              && Takes(Judge(binding, e.change).connection, p, default)
    ensures Offers(binding, e, p, default) ==> Judge(binding, e.change).connection.tx == e.change.destination.value
  {
  }

  lemma {:induction false} TakersAreOffered(
    binding: BindingTable, events: seq<Event>, p: Packet, default: Option<string>)
    ensures Takers(Added(binding, events, p.gdpname), p, default) == Offered(binding, events, p, default)
  {
    if |events| > 0 {
      var before, e := events[..|events| - 1], events[|events| - 1];
      TakersAreOffered(binding, before, p, default);
      OfferIsTaken(binding, e, p, default);
      hide Judge, Takes, Offers;
      var added := Added(binding, before, p.gdpname);
      if e.Updates? && e.change.name == p.gdpname && Judge(binding, e.change).Accepted? {
        var c := Judge(binding, e.change).connection;
        assert Added(binding, events, p.gdpname) == added + [c];
        TakersOfOneMore(added, c, p, default);
      } else {
        assert Added(binding, events, p.gdpname) == added;
      }
    }
  }

  /** Where every packet of every run goes, told from the events alone: to the channels offered to its name and kind, in
      order and each as often as it was offered, unless its identifier was answered before or the handler has stopped.
      A response without identifier, or to a name never asked for, goes nowhere, and a request without identifier goes
      only to the first, because the handler stops there. */
  lemma PacketsGoWhereOffered(binding: BindingTable, events: seq<Event>, i: nat)
    requires i < |events| && events[i].Packets?
    ensures var p := events[i].packet;
            var offered := Offered(binding, events[..i], p, events[i].default);
            SentTo(binding, events, i) ==
              if !Before(binding, events, i).alive || AnsweredBefore(binding, events, i, p.guid) then []
              else if p.action == Response && (p.guid.None? || !AskedBefore(binding, events, i, p.gdpname)) then []
              else if p.action == Request && p.guid.None? && offered != [] then [offered[0]]
              else offered
  {
    var p, default := events[i].packet, events[i].default;
    var s := Before(binding, events, i);
    if s.alive {
      ProcessedMeansAnswered(binding, events, i, p.guid);
      RequestedMeansAsked(binding, events, i, p.gdpname);
      TableIsHistory(binding, events[..i], p.gdpname);
      TakersAreOffered(binding, events[..i], p, default);
      assert Recipients(s, p, default) ==
             if AnsweredBefore(binding, events, i, p.guid) then [] else Offered(binding, events[..i], p, default);
    }
    hide Before, Takers, Offered, Answers, Asks, Receivers;
  }

  /** A forwarded packet, a response or a request with an identifier goes to a channel exactly when an update before it
      has offered that channel. */
  lemma WhoGetsIt(binding: BindingTable, events: seq<Event>, i: nat, t: Channel)
    requires i < |events| && events[i].Packets? && Before(binding, events, i + 1).alive
    ensures var p, default := events[i].packet, events[i].default;
            t in SentTo(binding, events, i) <==>
            && !AnsweredBefore(binding, events, i, p.guid)
            && exists j :: 0 <= j < i && Offers(binding, events[j], p, default)
                           && events[j].change.destination.value == t
  {
    var p, default := events[i].packet, events[i].default;
    AliveBefore(binding, events, i, i + 1);
    RecipientsFollowHistory(binding, events, i);
    TakersAreOffered(binding, events[..i], p, default);
    hide *;
    OfferedBySome(binding, events, i, p, default, t);
  }

  lemma {:induction false} OfferedBySome(
    binding: BindingTable, events: seq<Event>, i: nat, p: Packet, default: Option<string>, t: Channel)
    requires i <= |events|
    ensures t in Offered(binding, events[..i], p, default) <==>
            exists j :: 0 <= j < i && Offers(binding, events[j], p, default)
                        && events[j].change.destination.value == t
    decreases i
  {
    if i > 0 {
      OfferedBySome(binding, events, i - 1, p, default, t);
      assert events[..i][..i - 1] == events[..i - 1];
      hide Offers;
    }
  }

  // ----- When the handler panics -----

  /** The packet taken `i`-th is a request that was not thrown away as processed. */
  predicate Asks(binding: BindingTable, events: seq<Event>, i: nat, n: GdpName)
    requires i < |events|
  {
    events[i].Packets? && events[i].packet.action == Request && events[i].packet.gdpname == n
    && events[i].packet.guid !in Before(binding, events, i).processed
  }

  lemma AskStep(binding: BindingTable, events: seq<Event>, i: nat, n: GdpName)
    requires i < |events| && Before(binding, events, i).alive
    ensures n in Before(binding, events, i + 1).requested <==>
              n in Before(binding, events, i).requested || Asks(binding, events, i, n)
  {
    BeforeNext(binding, events, i);
  }

  lemma {:induction false} RequestedMeansAsked(binding: BindingTable, events: seq<Event>, m: nat, n: GdpName)
    requires m <= |events| && Before(binding, events, m).alive
    ensures n in Before(binding, events, m).requested <==> exists i :: 0 <= i < m && Asks(binding, events, i, n)
    decreases m
  {
    if m > 0 {
      AliveBefore(binding, events, m - 1, m);
      RequestedMeansAsked(binding, events, m - 1, n);
      AskStep(binding, events, m - 1, n);
    }
  }

  predicate AskedBefore(binding: BindingTable, events: seq<Event>, i: nat, n: GdpName)
    requires i <= |events|
  {
    exists j :: 0 <= j < i && Asks(binding, events, j, n)
  }

  predicate AnsweredBefore(binding: BindingTable, events: seq<Event>, i: nat, guid: Option<GdpName>)
    requires i <= |events|
  {
    exists j :: 0 <= j < i && Answers(binding, events, j, guid)
  }

  /** In terms of what came before: the event is not a response to a name never asked for, nor a response or request
      without identifier, except a request that was not answered before and that nobody takes; nor a receiver to be
      added that lacks an interface, an address or, when it passes the binding table, a destination. */
  predicate Harmless(binding: BindingTable, events: seq<Event>, i: nat)
    requires i < |events|
  {
    match events[i]
    case Updates(c) =>
      c.action == ADD && (c.kind == RECEIVER || c.kind == REQUESTRECEIVER || c.kind == RESPONSERECEIVER) ==>
        && c.interface.Some? && c.address.Some?
        && (Allows(binding, c.interface.value, c.address.value) ==> c.destination.Some?)
    case Packets(p, default) =>
      match p.action
      case Response => p.guid.Some? && AskedBefore(binding, events, i, p.gdpname)
      case Request =>
        p.guid.Some? ||
        (!AnsweredBefore(binding, events, i, p.guid) &&
         Offered(binding, events[..i], p, default) == [])
      case _ => true
  }

  lemma HandleStaysAlive(s: State, p: Packet, default: Option<string>)
    requires s.alive
    ensures Handle(s, p, default).alive <==> !Fatal(s, p, default)
  {
    hide Fatal, Recipients;
  }

  lemma FatalResponse(binding: BindingTable, events: seq<Event>, i: nat)
    requires i < |events| && Before(binding, events, i).alive
    requires events[i].Packets? && events[i].packet.action == Response
    ensures Fatal(Before(binding, events, i), events[i].packet, events[i].default) <==> !Harmless(binding, events, i)
  {
    RequestedMeansAsked(binding, events, i, events[i].packet.gdpname);
    hide Before, Asks;
  }

  lemma FatalRequest(binding: BindingTable, events: seq<Event>, i: nat)
    requires i < |events| && Before(binding, events, i).alive
    requires events[i].Packets? && events[i].packet.action == Request
    ensures Fatal(Before(binding, events, i), events[i].packet, events[i].default) <==> !Harmless(binding, events, i)
  {
    var p := events[i].packet;
    ProcessedMeansAnswered(binding, events, i, p.guid);
    TableIsHistory(binding, events[..i], p.gdpname);
    assert Receivers(Before(binding, events, i), p.gdpname) == Added(binding, events[..i], p.gdpname);
    TakersAreOffered(binding, events[..i], p, events[i].default);
    hide Before, Answers, Takers, Receivers;
  }

  /** The handler survives exactly the harmless events. */
  lemma WhenItPanics(binding: BindingTable, events: seq<Event>, i: nat)
    requires i < |events| && Before(binding, events, i).alive
    ensures Before(binding, events, i + 1).alive <==> Harmless(binding, events, i)
  {
    BeforeNext(binding, events, i);
    hide Before, Handle, Fatal, Offered, AskedBefore, AnsweredBefore;
    match events[i]
    case Updates(c) =>
    case Packets(p, default) =>
      HandleStaysAlive(Before(binding, events, i), p, default);
      if p.action == Response {
        FatalResponse(binding, events, i);
      } else if p.action == Request {
        FatalRequest(binding, events, i);
      } else {
        OthersAreNotFatal(Before(binding, events, i), p, default);
      }
  }

  lemma OthersAreNotFatal(s: State, p: Packet, default: Option<string>)
    requires p.action != Request && p.action != Response
    ensures !Fatal(s, p, default)
  {
  }

  /** The handler runs as long as every event was harmless. */
  lemma {:induction false} RunsWhileHarmless(binding: BindingTable, events: seq<Event>, n: nat)
    requires n <= |events|
    ensures Before(binding, events, n).alive <==> forall i :: 0 <= i < n ==> Harmless(binding, events, i)
    decreases n
  {
    if n > 0 {
      RunsWhileHarmless(binding, events, n - 1);
      if Before(binding, events, n - 1).alive {
        WhenItPanics(binding, events, n - 1);
      } else {
        AliveBeforeOnly(binding, events, n - 1);
      }
      hide Before, Harmless;
    }
  }

  lemma AliveBeforeOnly(binding: BindingTable, events: seq<Event>, i: nat)
    requires i < |events| && !Before(binding, events, i).alive
    ensures !Before(binding, events, i + 1).alive
  {
    BeforeNext(binding, events, i);
  }

  // ----- The handler -----

  /** `service_connection_fib_handler`: its tables, and what it has sent to each channel. */
  class Handler {
    const binding: BindingTable
    var table: map<GdpName, seq<FibConnection>>
    var processed: set<Option<GdpName>>
    var requested: set<GdpName>
    var alive: bool
    var sent: seq<(Channel, Packet)>

    ghost function View(): State
      reads this
    {
      State(table, processed, requested, alive)
    }

    /** Whatever is in the table was unwrapped when it was added. */
    ghost predicate Valid()
      reads this
    {
      forall n :: n in table ==> forall i :: 0 <= i < |table[n]| ==> Fit(binding, table[n][i])
    }

    constructor (binding: BindingTable)
      ensures this.binding == binding && View() == Init() && Valid() && sent == []
    {
      this.binding := binding;
      table, processed, requested, alive, sent := map[], {}, {}, true, [];
    }

    method OnUpdate(change: FibStateChange)
      requires alive && Valid()
      modifies this
      ensures View() == Next(binding, old(View()), Updates(change)) && Valid() && sent == old(sent)
    {
      if change.action != ADD ||
         !(change.kind == RECEIVER || change.kind == REQUESTRECEIVER || change.kind == RESPONSERECEIVER) {
        return;
      }
      if change.interface.None? || change.address.None? {
        alive := false;
        return;
      }
      var interface, address := change.interface.value, change.address.value;
      var inBindingTable := binding.Some? && interface in binding.value && binding.value[interface] <= address;
      if binding.Some? && interface != "ros" && !inBindingTable {
        return;
      }
      if change.destination.None? {
        alive := false;
        return;
      }
      var connection := FibConnection(RUNNING, change.kind, change.destination.value, change.interface, change.address);
      if change.name in table {
        table := table[change.name := table[change.name] + [connection]];
      } else {
        table := table[change.name := [connection]];
        assert [] + [connection] == [connection];
      }
    }

    /** The packet as sent to each of the channels. */
    ghost function Copies(channels: seq<Channel>, p: Packet): (r: seq<(Channel, Packet)>)
      ensures |r| == |channels| && forall i :: 0 <= i < |channels| ==> r[i] == (channels[i], p)
    {
      seq(|channels|, i requires 0 <= i < |channels| => (channels[i], p))
    }

    method OnForward(p: Packet)
      requires alive && Valid() && p.action == Forward
      modifies this`processed, this`sent
      ensures View() == Next(binding, old(View()), Packets(p, None)) && Valid()
      ensures sent == old(sent) + Copies(Sent(old(View()), p, None), p)
    {
      if p.guid in processed || p.gdpname !in table {
        assert Copies([], p) == [];
        return;
      }
      var cs := table[p.gdpname];
      ghost var before := processed;
      for i := 0 to |cs|
        invariant sent == old(sent) + Copies(Takers(cs[..i], p, None), p)
        invariant processed == before + if Takers(cs[..i], p, None) == [] then {} else {p.guid}
      {
        assert cs[..i + 1][..i] == cs[..i];
        if cs[i].state == RUNNING && cs[i].kind == RECEIVER {
          processed := processed + {p.guid};
          sent := sent + [(cs[i].tx, p)];
        }
      }
      assert cs[..|cs|] == cs;
    }

    /** Sends a request to those who take it; without an identifier the first log entry panics. */
    method OfferRequest(cs: seq<FibConnection>, p: Packet, default: string)
      requires alive && p.action == Request && forall i :: 0 <= i < |cs| ==> cs[i].interface.Some?
      modifies this`alive, this`sent
      ensures var all := Takers(cs, p, Some(default));
              && (alive <==> p.guid.Some? || all == [])
              && sent == old(sent) + Copies(if p.guid.Some? || all == [] then all else [all[0]], p)
    {
      for i := 0 to |cs|
        invariant alive
        invariant sent == old(sent) + Copies(Takers(cs[..i], p, Some(default)), p)
        invariant p.guid.None? ==> Takers(cs[..i], p, Some(default)) == []
      {
        assert cs[..i + 1][..i] == cs[..i];
        if cs[i].state == RUNNING && cs[i].kind == REQUESTRECEIVER {
          if cs[i].interface.value == "ros" || cs[i].interface.value == default {
            sent := sent + [(cs[i].tx, p)];
            if p.guid.None? {
              alive := false;
              TakersPrefix(cs, i + 1, p, Some(default));
              return;
            }
          }
        }
      }
      assert cs[..|cs|] == cs;
    }

    /** `default` is the name of the default interface, or `None` if the lookup fails. */
    method OnRequest(p: Packet, default: Option<string>)
      requires alive && Valid() && p.action == Request
      modifies this
      ensures View() == Next(binding, old(View()), Packets(p, default)) && Valid()
      ensures sent == old(sent) + Copies(Sent(old(View()), p, default), p)
    {
      if p.guid in processed {
        alive := p.guid.Some?;
        assert Copies([], p) == [];
        return;
      }
      requested := requested + {p.gdpname};
      if default.None? || p.gdpname !in table {
        NobodyTakes(Receivers(old(View()), p.gdpname), p);
        assert Copies([], p) == [];
        return;
      }
      OfferRequest(table[p.gdpname], p, default.value);
    }

    method OnResponse(p: Packet)
      requires alive && Valid() && p.action == Response
      modifies this`alive, this`processed, this`sent
      ensures View() == Next(binding, old(View()), Packets(p, None)) && Valid()
      ensures sent == old(sent) + Copies(Sent(old(View()), p, None), p)
    {
      if p.gdpname !in requested || p.guid.None? {
        alive := false;
        assert Copies([], p) == [];
        return;
      }
      if p.guid in processed {
        assert processed + {p.guid} == processed;
        assert Copies([], p) == [];
        return;
      }
      processed := processed + {p.guid};
      if p.gdpname !in table {
        assert Copies([], p) == [];
        return;
      }
      var cs := table[p.gdpname];
      for i := 0 to |cs|
        invariant alive && processed == old(processed) + {p.guid}
        invariant sent == old(sent) + Copies(Takers(cs[..i], p, None), p)
      {
        assert cs[..i + 1][..i] == cs[..i];
        if cs[i].state == RUNNING && cs[i].kind == RESPONSERECEIVER {
          sent := sent + [(cs[i].tx, p)];
        }
      }
      assert cs[..|cs|] == cs;
    }
  }

  lemma {:induction false} NobodyTakes(cs: seq<FibConnection>, p: Packet)
    requires p.action == Request
    ensures Takers(cs, p, None) == []
  {
    if |cs| > 0 {
      NobodyTakes(cs[..|cs| - 1], p);
    }
  }

  lemma {:induction false} TakersPrefix(cs: seq<FibConnection>, n: nat, p: Packet, default: Option<string>)
    requires n <= |cs|
    ensures Takers(cs[..n], p, default) <= Takers(cs, p, default)
  {
    if n == |cs| {
      assert cs[..n] == cs;
    } else {
      TakersPrefix(cs[..|cs| - 1], n, p, default);
      assert cs[..|cs| - 1][..n] == cs[..n];
    }
  }
}
