/**
  How the clients of routing_manager.rs meet over the signaling server: each asks in one request to listen to the
  topic of the opposite direction and publishes its candidates in another.
 */
module Rendezvous {
  import opened Wrappers
  import opened RoutingManager
  import opened Signaling

  // The server (`Server::handle_client` of fogrs-signaling/src/lib.rs) handles the requests as separate tasks in any
  // order.

  type Clients<M> = map<SubscriberId, Client<M>>

  datatype Stage = Started | Logged | Over

  /** A PUBLISH request being handled, and the topic it goes to. */
  datatype Publication = Publication(topic: nat, stage: Stage)

  /** `index` is the server's map from keys to topics, where a topic is given by its run so far; `holder` is the
      client whose PUBLISH request holds the lock of that map, which is only let go once the message is sent. */
  datatype ServerState<M> = ServerState(
    index: map<string, nat>, topics: seq<Trace<M>>, holder: Option<SubscriberId>,
    listening: map<SubscriberId, nat>, registered: set<SubscriberId>, publications: map<SubscriberId, Publication>)

  datatype Action<M> =
    | Lookup(c: SubscriberId) | StartPublish(c: SubscriberId) | EndPublish(c: SubscriberId)
    | InTopic(id: nat, e: Event<M>)

  predicate MayHappen<M(==)>(clients: Clients<M>, s: ServerState<M>, id: nat, e: Event<M>)
    requires id < |s.topics|
  {
    match e
    case Append(m) =>
      && s.holder.Some? && s.holder.value in s.publications && s.holder.value in clients
      && s.publications[s.holder.value] == Publication(id, Started) && m == clients[s.holder.value].candidates
    case Register(k) => k in s.listening && s.listening[k] == id && k !in s.registered
    case _ => true
  }

  ghost predicate CanAct<M>(clients: Clients<M>, s: ServerState<M>, a: Action<M>) {
    match a
    case Lookup(c) => s.holder.None? && c in clients && clients[c].Valid() && c !in s.listening
    case StartPublish(c) => s.holder.None? && c in clients && clients[c].Valid() && c !in s.publications
    case EndPublish(c) =>
      && s.holder == Some(c) && c in clients && c in s.publications && s.publications[c].stage == Logged
      && s.publications[c].topic < |s.topics| && Run(s.topics[s.publications[c].topic])
      && s.topics[s.publications[c].topic].Last().lock.Free?
    case InTopic(id, e) =>
      id < |s.topics| && Run(s.topics[id]) && Enabled(s.topics[id].Last(), e) && MayHappen(clients, s, id, e)
  }

  function Act<M>(clients: Clients<M>, s: ServerState<M>, a: Action<M>, now: real): ServerState<M>
    requires CanAct(clients, s, a)
  {
    match a
    case Lookup(c) =>
      var key := clients[c].ListensTo();
      if key in s.index then s.(listening := s.listening[c := s.index[key]])
      else s.(index := s.index[key := |s.topics|], topics := s.topics + [Begin],
              listening := s.listening[c := |s.topics|])
    case StartPublish(c) =>
      var key := clients[c].PublishesTo();
      if key in s.index
      then s.(holder := Some(c), publications := s.publications[c := Publication(s.index[key], Started)])
      else s.(holder := Some(c), topics := s.topics + [Begin],
              publications := s.publications[c := Publication(|s.topics|, Started)])
    case EndPublish(c) =>
      var p := s.publications[c];
      var key := clients[c].PublishesTo();
      s.(holder := None, index := if key in s.index then s.index else s.index[key := p.topic],
         publications := s.publications[c := p.(stage := Over)])
    case InTopic(id, e) =>
      var s' := s.(topics := s.topics[id := Then(s.topics[id], e, now)]);
      match e
      case Append(_) =>
        var c := s.holder.value;
        s'.(publications := s.publications[c := Publication(id, Logged)])
      case Register(k) => s'.(registered := s.registered + {k})
      case _ => s'
  }

  datatype History<M> = Start | Next(before: History<M>, a: Action<M>, now: real) {
    function Last(clients: Clients<M>): ServerState<M>
      requires Possible(clients, this)
      decreases this, 1
    {
      if Start? then ServerState(map[], [], None, map[], {}, map[])
      else Act(clients, before.Last(clients), a, now)
    }

    function Clock(): real {
      if Start? then 0.0 else now
    }
  }

  ghost predicate Possible<M>(clients: Clients<M>, h: History<M>)
    decreases h, 0
  {
    h.Next? ==>
      Possible(clients, h.before) && CanAct(clients, h.before.Last(clients), h.a) && h.before.Clock() <= h.now
  }

  // ----- What every step keeps -----

  /** A topic changes only by its own steps, and new topics are empty. */
  lemma TopicStep<M>(clients: Clients<M>, s: ServerState<M>, a: Action<M>, now: real, id: nat)
    requires CanAct(clients, s, a)
    ensures var s' := Act(clients, s, a, now);
            && |s.topics| <= |s'.topics|
            && (id < |s.topics| ==> s'.topics[id] == if a.InTopic? && a.id == id then Then(s.topics[id], a.e, now)
                                                     else s.topics[id])
            && (|s.topics| <= id < |s'.topics| ==> s'.topics[id] == Begin)
  {
    hide Run, Enabled, Trace<M>.Last, MayHappen, Client<M>.ListensTo, Client<M>.PublishesTo, Client<M>.Valid;
  }

  lemma Unfold<M>(clients: Clients<M>, h: History<M>)
    requires Possible(clients, h) && h.Next?
    ensures Possible(clients, h.before) && CanAct(clients, h.before.Last(clients), h.a)
    ensures h.Last(clients) == Act(clients, h.before.Last(clients), h.a, h.now)
    ensures h.before.Clock() <= h.now == h.Clock()
  {
    hide CanAct, Act;
  }

  lemma RunGrows<M>(t: Trace<M>, e: Event<M>, now: real)
    requires Run(t) && Enabled(t.Last(), e) && t.Clock() <= now
    ensures Run(Then(t, e, now)) && Then(t, e, now).Clock() == now
  {
    hide Enabled, Step;
  }

  lemma TopicActionIsEnabled<M>(clients: Clients<M>, s: ServerState<M>, a: Action<M>)
    requires CanAct(clients, s, a) && a.InTopic?
    ensures a.id < |s.topics| && Run(s.topics[a.id]) && Enabled(s.topics[a.id].Last(), a.e)
    ensures MayHappen(clients, s, a.id, a.e)
  {
    hide Run, Enabled, Trace<M>.Last, MayHappen;
  }

  lemma BeginRuns<M>(now: real)
    requires 0.0 <= now
    ensures Run(Trace<M>.Begin) && Trace<M>.Begin.Clock() <= now
  {
  }

  lemma {:induction false} ClockIsPositive<M>(h: History<M>, clients: Clients<M>)
    requires Possible(clients, h)
    ensures 0.0 <= h.Clock()
  {
    if h.Next? {
      Unfold(clients, h);
      ClockIsPositive(h.before, clients);
    }
    hide CanAct, Act;
  }

  lemma StartState<M>(clients: Clients<M>)
    ensures Possible(clients, History<M>.Start)
    ensures History<M>.Start.Last(clients) == ServerState(map[], [], None, map[], {}, map[])
  {
  }

  lemma {:induction false} TopicsRun<M>(clients: Clients<M>, h: History<M>, id: nat)
    requires Possible(clients, h) && id < |h.Last(clients).topics|
    ensures Run(h.Last(clients).topics[id]) && h.Last(clients).topics[id].Clock() <= h.Clock()
  {
    StartState(clients);
    if h.Next? {
      Unfold(clients, h);
      ClockIsPositive(h, clients);
      hide *;
      var s := h.before.Last(clients);
      TopicStep(clients, s, h.a, h.now, id);
      if id < |s.topics| {
        TopicsRun(clients, h.before, id);
        if h.a.InTopic? && h.a.id == id {
          TopicActionIsEnabled(clients, s, h.a);
          RunGrows(s.topics[id], h.a.e, h.now);
        }
      } else {
        BeginRuns<M>(h.now);
      }
    }
  }

  // ----- Clients of one key share one topic -----

  /** What holds of the key of client `c`, and of the topic it listens to. */
  ghost predicate ListensRight<M>(clients: Clients<M>, s: ServerState<M>, c: SubscriberId) {
    c in s.listening ==>
      && c in clients && clients[c].Valid() && s.listening[c] < |s.topics|
      && clients[c].ListensTo() in s.index && s.index[clients[c].ListensTo()] == s.listening[c]
  }

  /** What holds of the topic that client `c` publishes to: no other topic can get its key meanwhile. */
  ghost predicate PublishesRight<M>(clients: Clients<M>, s: ServerState<M>, c: SubscriberId) {
    c in s.publications ==>
      && c in clients && clients[c].Valid() && s.publications[c].topic < |s.topics|
      && (clients[c].PublishesTo() in s.index ==> s.index[clients[c].PublishesTo()] == s.publications[c].topic)
      && (s.publications[c].stage == Over ==> clients[c].PublishesTo() in s.index)
      && (s.publications[c].stage != Over ==> s.holder == Some(c))
  }

  ghost predicate InRange<M>(s: ServerState<M>, key: string) {
    key in s.index ==> s.index[key] < |s.topics|
  }

  /** The keys that matter to client `c` lead to topics. */
  ghost predicate KeysInRange<M>(clients: Clients<M>, s: ServerState<M>, c: SubscriberId) {
    c in clients && clients[c].Valid() ==> InRange(s, clients[c].ListensTo()) && InRange(s, clients[c].PublishesTo())
  }

  lemma InRangeStep<M>(clients: Clients<M>, s: ServerState<M>, a: Action<M>, now: real, key: string)
    requires CanAct(clients, s, a) && InRange(s, key)
    ensures InRange(Act(clients, s, a, now), key)
  {
    hide Run, Enabled, Trace<M>.Last, MayHappen, Client<M>.ListensTo, Client<M>.PublishesTo, Client<M>.Valid;
  }

  lemma {:induction false} AlwaysInRange<M>(clients: Clients<M>, h: History<M>, key: string)
    requires Possible(clients, h)
    ensures InRange(h.Last(clients), key)
  {
    StartState(clients);
    if h.Next? {
      Unfold(clients, h);
      hide *;
      AlwaysInRange(clients, h.before, key);
      InRangeStep(clients, h.before.Last(clients), h.a, h.now, key);
    }
  }

  lemma ListensRightStep<M>(clients: Clients<M>, s: ServerState<M>, a: Action<M>, now: real, c: SubscriberId)
    requires CanAct(clients, s, a) && ListensRight(clients, s, c) && KeysInRange(clients, s, c)
    ensures ListensRight(clients, Act(clients, s, a, now), c)
  {
    hide Run, Enabled, Trace<M>.Last, MayHappen, Client<M>.ListensTo, Client<M>.PublishesTo, Client<M>.Valid;
  }

  lemma PublishesRightStep<M>(clients: Clients<M>, s: ServerState<M>, a: Action<M>, now: real, c: SubscriberId)
    requires CanAct(clients, s, a) && PublishesRight(clients, s, c) && KeysInRange(clients, s, c)
    ensures PublishesRight(clients, Act(clients, s, a, now), c)
  {
    hide Run, Enabled, Trace<M>.Last, Client<M>.ListensTo, Client<M>.PublishesTo, Client<M>.Valid;
  }

  lemma {:induction false} AlwaysRight<M>(clients: Clients<M>, h: History<M>, c: SubscriberId)
    requires Possible(clients, h)
    ensures ListensRight(clients, h.Last(clients), c) && PublishesRight(clients, h.Last(clients), c)
  {
    StartState(clients);
    if h.Next? {
      Unfold(clients, h);
      if c in clients && clients[c].Valid() {
        AlwaysInRange(clients, h.before, clients[c].ListensTo());
        AlwaysInRange(clients, h.before, clients[c].PublishesTo());
      }
      assert KeysInRange(clients, h.before.Last(clients), c);
      hide *;
      AlwaysRight(clients, h.before, c);
      ListensRightStep(clients, h.before.Last(clients), h.a, h.now, c);
      PublishesRightStep(clients, h.before.Last(clients), h.a, h.now, c);
    }
  }

  /** Different keys have different topics. */
  ghost predicate KeysDiffer<M>(s: ServerState<M>, k: string, l: string) {
    k in s.index && l in s.index && s.index[k] == s.index[l] ==> k == l
  }

  /** The topic that client `c` is publishing to is nobody's under another key. */
  ghost predicate TopicIsOwn<M>(clients: Clients<M>, s: ServerState<M>, c: SubscriberId, k: string) {
    c in s.publications && c in clients && s.publications[c].stage != Over ==>
      k in s.index && k != clients[c].PublishesTo() ==> s.index[k] != s.publications[c].topic
  }

  lemma KeysDifferStep<M>(clients: Clients<M>, s: ServerState<M>, a: Action<M>, now: real, k: string, l: string)
    requires CanAct(clients, s, a) && KeysDiffer(s, k, l) && InRange(s, k) && InRange(s, l)
    requires a.EndPublish? ==> TopicIsOwn(clients, s, a.c, k) && TopicIsOwn(clients, s, a.c, l)
    ensures KeysDiffer(Act(clients, s, a, now), k, l)
  {
    hide Run, Enabled, Trace<M>.Last, MayHappen, Client<M>.ListensTo, Client<M>.PublishesTo, Client<M>.Valid;
  }

  lemma TopicIsOwnStep<M>(clients: Clients<M>, s: ServerState<M>, a: Action<M>, now: real, c: SubscriberId, k: string)
    requires CanAct(clients, s, a) && TopicIsOwn(clients, s, c, k) && InRange(s, k)
    requires c in clients ==> KeysDiffer(s, k, clients[c].PublishesTo())
    requires PublishesRight(clients, s, c)
    ensures TopicIsOwn(clients, Act(clients, s, a, now), c, k)
  {
    hide Run, Enabled, Trace<M>.Last, Client<M>.ListensTo, Client<M>.PublishesTo, Client<M>.Valid;
  }

  lemma {:induction false} AlwaysDiffer<M>(clients: Clients<M>, h: History<M>, k: string, l: string)
    requires Possible(clients, h)
    ensures KeysDiffer(h.Last(clients), k, l)
  {
    StartState(clients);
    if h.Next? {
      Unfold(clients, h);
      hide *;
      AlwaysDiffer(clients, h.before, k, l);
      AlwaysInRange(clients, h.before, k);
      AlwaysInRange(clients, h.before, l);
      if h.a.EndPublish? {
        AlwaysOwn(clients, h.before, h.a.c, k);
        AlwaysOwn(clients, h.before, h.a.c, l);
      }
      KeysDifferStep(clients, h.before.Last(clients), h.a, h.now, k, l);
    }
  }

  lemma {:induction false} AlwaysOwn<M>(clients: Clients<M>, h: History<M>, c: SubscriberId, k: string)
    requires Possible(clients, h)
    ensures TopicIsOwn(clients, h.Last(clients), c, k)
  {
    StartState(clients);
    if h.Next? {
      Unfold(clients, h);
      hide *;
      AlwaysOwn(clients, h.before, c, k);
      AlwaysInRange(clients, h.before, k);
      AlwaysRight(clients, h.before, c);
      if c in clients {
        AlwaysDiffer(clients, h.before, k, clients[c].PublishesTo());
      }
      TopicIsOwnStep(clients, h.before.Last(clients), h.a, h.now, c, k);
    }
  }

  // ----- What is published in a topic, and by whom -----

  ghost predicate Contains<M>(t: Trace<M>, m: M) {
    exists i :: 0 <= i < |t.Published()| && t.Published()[i].message == m
  }

  ghost predicate SaidRight<M>(clients: Clients<M>, s: ServerState<M>, c: SubscriberId) {
    c in s.publications && s.publications[c].stage != Started ==>
      c in clients && s.publications[c].topic < |s.topics|
      && Contains(s.topics[s.publications[c].topic], clients[c].candidates)
  }

  /** A topic's lock is only taken by the client that publishes to it. */
  ghost predicate HeldRight<M>(s: ServerState<M>, id: nat) {
    id < |s.topics| && Run(s.topics[id]) && !s.topics[id].Last().lock.Free? ==>
      && s.holder.Some? && s.holder.value in s.publications
      && s.publications[s.holder.value] == Publication(id, Logged)
  }

  ghost predicate HeardRight<M>(s: ServerState<M>, id: nat, k: SubscriberId) {
    id < |s.topics| && Run(s.topics[id]) && k in s.topics[id].Last().subscribers ==>
      k in s.listening && s.listening[k] == id
  }

  ghost predicate By<M>(clients: Clients<M>, s: ServerState<M>, c: SubscriberId, id: nat, m: M) {
    c in s.publications && c in clients && s.publications[c].stage != Started
    && s.publications[c].topic == id && clients[c].candidates == m
  }

  /** Message number `i` of a topic is some client's. */
  ghost predicate FromAClient<M>(clients: Clients<M>, s: ServerState<M>, id: nat, i: nat) {
    id < |s.topics| && i < |s.topics[id].Published()| ==>
      exists c :: By(clients, s, c, id, s.topics[id].Published()[i].message)
  }

  lemma ContainsMore<M>(t: Trace<M>, e: Event<M>, now: real, m: M)
    requires Contains(t, m)
    ensures Contains(Then(t, e, now), m)
  {
    var i :| 0 <= i < |t.Published()| && t.Published()[i].message == m;
    assert Then(t, e, now).Published()[i].message == m;
  }

  lemma ContainsNew<M>(t: Trace<M>, m: M, now: real)
    ensures Contains(Then(t, Append(m), now), m)
  {
    assert Then(t, Append(m), now).Published()[|t.Published()|].message == m;
  }

  /** How a step changes client `c`'s publication. */
  lemma PublicationStep<M>(clients: Clients<M>, s: ServerState<M>, a: Action<M>, now: real, c: SubscriberId)
    requires CanAct(clients, s, a) && a != StartPublish(c)
    ensures c in Act(clients, s, a, now).publications ==> c in s.publications
    ensures c in s.publications ==>
              var p, p' := s.publications[c], Act(clients, s, a, now).publications[c];
              && c in Act(clients, s, a, now).publications && p'.topic == p.topic
              && (p.stage == Started && p'.stage != Started ==>
                    a.InTopic? && a.id == p.topic && c in clients && a.e == Append(clients[c].candidates))
              && (p.stage != Started ==> p'.stage != Started)
  {
    hide Run, Enabled, Trace<M>.Last, Client<M>.ListensTo, Client<M>.PublishesTo, Client<M>.Valid;
  }

  lemma SaidRightStep<M>(clients: Clients<M>, s: ServerState<M>, a: Action<M>, now: real, c: SubscriberId)
    requires CanAct(clients, s, a) && SaidRight(clients, s, c) && PublishesRight(clients, s, c)
    ensures SaidRight(clients, Act(clients, s, a, now), c)
  {
    if a == StartPublish(c) {
      assert Act(clients, s, a, now).publications[c].stage == Started;
    } else if c in s.publications {
      var p := s.publications[c];
      PublicationStep(clients, s, a, now, c);
      TopicStep(clients, s, a, now, p.topic);
      if a.InTopic? && a.id == p.topic {
        if p.stage != Started {
          ContainsMore(s.topics[p.topic], a.e, now, clients[c].candidates);
        } else {
          ContainsNew(s.topics[p.topic], clients[c].candidates, now);
        }
      }
      hide Act, CanAct, Contains;
    } else {
      PublicationStep(clients, s, a, now, c);
      hide Act, CanAct, Contains;
    }
  }

  lemma {:induction false} AlwaysSaid<M>(clients: Clients<M>, h: History<M>, c: SubscriberId)
    requires Possible(clients, h)
    ensures SaidRight(clients, h.Last(clients), c)
  {
    StartState(clients);
    if h.Next? {
      Unfold(clients, h);
      hide *;
      AlwaysSaid(clients, h.before, c);
      AlwaysRight(clients, h.before, c);
      SaidRightStep(clients, h.before.Last(clients), h.a, h.now, c);
    }
  }

  lemma LockOfNext<M>(t: Trace<M>, e: Event<M>, now: real)
    requires Run(t) && Enabled(t.Last(), e) && t.Clock() <= now
    ensures Run(Then(t, e, now))
    ensures t.Last().lock.Free? && !e.Append? ==> Then(t, e, now).Last().lock.Free?
  {
    RunGrows(t, e, now);
    LockStep(Then(t, e, now));
  }

  lemma BeginState<M>()
    ensures Run(Trace<M>.Begin) && Trace<M>.Begin.Last() == NewTopic()
  {
  }

  /** How a step changes the holder of the map's lock. */
  lemma HolderStep<M>(clients: Clients<M>, s: ServerState<M>, a: Action<M>, now: real, id: nat)
    requires CanAct(clients, s, a)
    ensures var s' := Act(clients, s, a, now);
            && (a.InTopic? ==> s'.holder == s.holder)
            && (a.InTopic? && a.e.Append? ==>
                  s.holder.Some? && s.holder.value in s'.publications
                  && s'.publications[s.holder.value] == Publication(a.id, Logged))
            && (a.InTopic? && !a.e.Append? ==> s'.publications == s.publications)
            && (a.Lookup? || a.StartPublish? ==> s.holder.None?)
            && (a.EndPublish? ==>
                  s.holder == Some(a.c) && a.c in s.publications && s.publications[a.c].topic < |s.topics|
                  && Run(s.topics[s.publications[a.c].topic])
                  && s.topics[s.publications[a.c].topic].Last().lock.Free?)
  {
    hide Run, Enabled, Trace<M>.Last, Client<M>.ListensTo, Client<M>.PublishesTo, Client<M>.Valid;
  }

  lemma HeldRightStep<M>(clients: Clients<M>, s: ServerState<M>, a: Action<M>, now: real, id: nat)
    requires CanAct(clients, s, a) && HeldRight(s, id)
    requires a.InTopic? && a.id < |s.topics| ==> s.topics[a.id].Clock() <= now
    ensures HeldRight(Act(clients, s, a, now), id)
  {
    BeginState<M>();
    TopicStep(clients, s, a, now, id);
    HolderStep(clients, s, a, now, id);
    if a.InTopic? {
      TopicActionIsEnabled(clients, s, a);
      LockOfNext(s.topics[a.id], a.e, now);
    }
    hide Act, CanAct, MayHappen, Run, Trace<M>.Last, Enabled;
  }

  lemma {:induction false} AlwaysHeld<M>(clients: Clients<M>, h: History<M>, id: nat)
    requires Possible(clients, h)
    ensures HeldRight(h.Last(clients), id)
  {
    StartState(clients);
    if h.Next? {
      Unfold(clients, h);
      hide *;
      AlwaysHeld(clients, h.before, id);
      var s := h.before.Last(clients);
      if h.a.InTopic? && h.a.id < |s.topics| {
        TopicsRun(clients, h.before, h.a.id);
      }
      HeldRightStep(clients, s, h.a, h.now, id);
    } else {
      hide Run, Trace<M>.Last;
    }
  }

  lemma SubscribersOfNext<M>(t: Trace<M>, e: Event<M>, now: real, k: SubscriberId)
    requires Run(t) && Enabled(t.Last(), e) && t.Clock() <= now
    ensures Run(Then(t, e, now))
    ensures k in Then(t, e, now).Last().subscribers ==> k in t.Last().subscribers || e == Register(k)
  {
    RunGrows(t, e, now);
    hide Run;
  }

  lemma ListeningStays<M>(clients: Clients<M>, s: ServerState<M>, a: Action<M>, now: real, k: SubscriberId)
    requires CanAct(clients, s, a)
    ensures k in s.listening ==>
              k in Act(clients, s, a, now).listening && Act(clients, s, a, now).listening[k] == s.listening[k]
    ensures a.InTopic? && a.e == Register(k) ==> k in s.listening && s.listening[k] == a.id
  {
    hide Run, Enabled, Trace<M>.Last, Client<M>.ListensTo, Client<M>.PublishesTo, Client<M>.Valid;
  }

  lemma HeardRightStep<M>(clients: Clients<M>, s: ServerState<M>, a: Action<M>, now: real, id: nat, k: SubscriberId)
    requires CanAct(clients, s, a) && HeardRight(s, id, k)
    requires a.InTopic? && a.id < |s.topics| ==> s.topics[a.id].Clock() <= now
    ensures HeardRight(Act(clients, s, a, now), id, k)
  {
    BeginState<M>();
    TopicStep(clients, s, a, now, id);
    ListeningStays(clients, s, a, now, k);
    if a.InTopic? {
      TopicActionIsEnabled(clients, s, a);
      SubscribersOfNext(s.topics[a.id], a.e, now, k);
    }
    hide Act, CanAct, MayHappen, Run, Trace<M>.Last, Enabled;
  }

  lemma {:induction false} AlwaysHeard<M>(clients: Clients<M>, h: History<M>, id: nat, k: SubscriberId)
    requires Possible(clients, h)
    ensures HeardRight(h.Last(clients), id, k)
  {
    StartState(clients);
    if h.Next? {
      Unfold(clients, h);
      hide *;
      AlwaysHeard(clients, h.before, id, k);
      var s := h.before.Last(clients);
      if h.a.InTopic? && h.a.id < |s.topics| {
        TopicsRun(clients, h.before, h.a.id);
      }
      HeardRightStep(clients, s, h.a, h.now, id, k);
    } else {
      hide Run, Trace<M>.Last;
    }
  }

  lemma PublishedOfNext<M>(t: Trace<M>, e: Event<M>, now: real, i: nat)
    ensures i < |t.Published()| ==>
              i < |Then(t, e, now).Published()| && Then(t, e, now).Published()[i] == t.Published()[i]
    ensures |t.Published()| <= i < |Then(t, e, now).Published()| ==>
              e == Append(Then(t, e, now).Published()[i].message)
  {
  }

  lemma AppendIsBy<M>(clients: Clients<M>, s: ServerState<M>, a: Action<M>, now: real)
    requires CanAct(clients, s, a) && a.InTopic? && a.e.Append?
    ensures s.holder.Some? && By(clients, Act(clients, s, a, now), s.holder.value, a.id, a.e.message)
  {
    hide Run, Enabled, Trace<M>.Last;
  }

  lemma FromAClientStep<M>(clients: Clients<M>, s: ServerState<M>, a: Action<M>, now: real, id: nat, i: nat)
    requires CanAct(clients, s, a) && FromAClient(clients, s, id, i)
    ensures FromAClient(clients, Act(clients, s, a, now), id, i)
  {
    TopicStep(clients, s, a, now, id);
    var s' := Act(clients, s, a, now);
    if id < |s.topics| && i < |s'.topics[id].Published()| {
      if a.InTopic? && a.id == id {
        PublishedOfNext(s.topics[id], a.e, now, i);
      }
      if i < |s.topics[id].Published()| {
        var m := s.topics[id].Published()[i].message;
        var c :| By(clients, s, c, id, m);
        ByStays(clients, s, a, now, c, id, m);
      } else {
        AppendIsBy(clients, s, a, now);
      }
    }
    hide Act, CanAct, By;
  }

  lemma ByStays<M>(clients: Clients<M>, s: ServerState<M>, a: Action<M>, now: real, c: SubscriberId, id: nat, m: M)
    requires CanAct(clients, s, a) && By(clients, s, c, id, m)
    ensures By(clients, Act(clients, s, a, now), c, id, m)
  {
    PublicationStep(clients, s, a, now, c);
    hide Act;
  }

  lemma {:induction false} AlwaysFromAClient<M>(clients: Clients<M>, h: History<M>, id: nat, i: nat)
    requires Possible(clients, h)
    ensures FromAClient(clients, h.Last(clients), id, i)
  {
    StartState(clients);
    if h.Next? {
      Unfold(clients, h);
      hide *;
      AlwaysFromAClient(clients, h.before, id, i);
      FromAClientStep(clients, h.before.Last(clients), h.a, h.now, id, i);
    }
  }

  // ----- The rendezvous -----

  /** Client `a` has copied its topic's log, has read everything sent to it, never fell behind the broadcast, and
      nothing had expired when it copied the log. */
  ghost predicate CaughtUp<M>(s: ServerState<M>, a: SubscriberId) {
    && a in s.listening && s.listening[a] < |s.topics|
    && Run(s.topics[s.listening[a]])
    && a in s.topics[s.listening[a]].Last().subscribers
    && var t := s.topics[s.listening[a]];
       && t.Last().subscribers[a].replayed && t.Last().subscribers[a].queue == [] && t.Last().subscribers[a].lost == 0
       && (forall i :: 0 <= i < |t.Published()| ==>
             Young(t.Published()[i], t.ReplaySweptAt(a)) || i >= t.RegisteredAt(a))
  }

  /** What client `a` was written. */
  ghost function Heard<M>(s: ServerState<M>, a: SubscriberId): seq<M>
    requires CaughtUp(s, a)
  {
    s.topics[s.listening[a]].Last().subscribers[a].stream
  }

  /** Every PUBLISH request of a client that does not panic has been handled. */
  ghost predicate AllPublished<M>(clients: Clients<M>, s: ServerState<M>) {
    s.holder.None? && forall c :: c in clients && clients[c].Valid() ==> c in s.publications
  }

  lemma PublicationsAreOver<M>(clients: Clients<M>, h: History<M>, c: SubscriberId)
    requires Possible(clients, h)
    ensures var s := h.Last(clients);
            s.holder.None? && c in s.publications ==>
              c in clients && clients[c].Valid() && s.publications[c].stage == Over
  {
    AlwaysRight(clients, h, c);
    hide Possible, History<M>.Last;
  }

  /** Both requests of a pair that meet go to one topic. */
  lemma {:induction false} OneTopic<M>(clients: Clients<M>, h: History<M>, a: SubscriberId, b: SubscriberId)
    requires Possible(clients, h)
    requires var s := h.Last(clients); a in s.listening && b in s.publications && s.holder.None?
    ensures var s := h.Last(clients);
            && a in clients && b in clients && clients[a].Valid()
            && (s.publications[b].topic == s.listening[a] <== clients[b].PublishesTo() == clients[a].ListensTo())
  {
    AlwaysRight(clients, h, a);
    AlwaysRight(clients, h, b);
    hide Possible, History<M>.Last, Client<M>.ListensTo, Client<M>.PublishesTo, Client<M>.Valid;
  }

  lemma ContainedArrives<M>(s: ServerState<M>, a: SubscriberId, m: M)
    requires CaughtUp(s, a) && s.topics[s.listening[a]].Last().lock.Free?
    requires Contains(s.topics[s.listening[a]], m)
    ensures m in Heard(s, a)
  {
    var t := s.topics[s.listening[a]];
    var i :| 0 <= i < |t.Published()| && t.Published()[i].message == m;
    hide Run, Trace<M>.Last;
    assert Young(t.Published()[i], t.ReplaySweptAt(a)) || i >= t.RegisteredAt(a);
    Arrives(t, a, i);
  }

  lemma {:induction false} TopicIsIdle<M>(clients: Clients<M>, h: History<M>, id: nat)
    requires Possible(clients, h) && h.Last(clients).holder.None? && id < |h.Last(clients).topics|
    ensures Run(h.Last(clients).topics[id]) && h.Last(clients).topics[id].Last().lock.Free?
  {
    AlwaysHeld(clients, h, id);
    TopicsRun(clients, h, id);
    hide Possible, History<M>.Last, Run, Trace<M>.Last;
  }

  lemma {:induction false} OppositeIsHeard<M>(clients: Clients<M>, h: History<M>, a: SubscriberId, b: SubscriberId)
    requires Possible(clients, h) && CaughtUp(h.Last(clients), a)
    requires h.Last(clients).holder.None? && a in clients && b in clients && b in h.Last(clients).publications
    requires clients[a].Valid() && clients[b].PublishesTo() == clients[a].ListensTo()
    ensures clients[b].candidates in Heard(h.Last(clients), a)
  {
    var s := h.Last(clients);
    OneTopic(clients, h, a, b);
    PublicationsAreOver(clients, h, b);
    AlwaysSaid(clients, h, b);
    TopicIsIdle(clients, h, s.listening[a]);
    hide Possible, History<M>.Last, Run, Trace<M>.Last, Contains;
    hide Client<M>.ListensTo, Client<M>.PublishesTo, Client<M>.Valid;
    ContainedArrives(s, a, clients[b].candidates);
  }

  /** Client `b` publishes `m` to where `a` listens. */
  ghost predicate Speaks<M>(clients: Clients<M>, a: SubscriberId, b: SubscriberId, m: M)
    requires a in clients && clients[a].Valid()
  {
    && b in clients && clients[b].Valid() && clients[b].PublishesTo() == clients[a].ListensTo()
    && clients[b].candidates == m
  }

  lemma OnlyOppositesAreHeard<M>(clients: Clients<M>, h: History<M>, a: SubscriberId, m: M)
    requires Possible(clients, h) && CaughtUp(h.Last(clients), a) && h.Last(clients).holder.None?
    requires a in clients && clients[a].Valid() && m in Heard(h.Last(clients), a)
    ensures exists b :: Speaks(clients, a, b, m)
  {
    var s := h.Last(clients);
    var id := s.listening[a];
    var t := s.topics[id];
    NothingElseArrives(t, a, m);
    assert Occurs(t.Published(), m);
    var i :| 0 <= i < |t.Published()| && t.Published()[i].message == m;
    AlwaysFromAClient(clients, h, id, i);
    var b :| By(clients, s, b, id, m);
    PublicationsAreOver(clients, h, b);
    AlwaysRight(clients, h, a);
    AlwaysRight(clients, h, b);
    AlwaysDiffer(clients, h, clients[b].PublishesTo(), clients[a].ListensTo());
    hide Possible, History<M>.Last, Run, Trace<M>.Last, Client<M>.ListensTo, Client<M>.PublishesTo, Client<M>.Valid;
    assert Speaks(clients, a, b, m);
  }

  /** In every run, once every PUBLISH request is handled, a client that has caught up was written exactly the
      candidates of the opposite ends of its name whose direction is spelled in lower case. */
  lemma HearsExactlyItsPeers<M>(clients: Clients<M>, h: History<M>, a: SubscriberId, m: M)
    requires Possible(clients, h) && CaughtUp(h.Last(clients), a) && AllPublished(clients, h.Last(clients))
    requires a in clients && clients[a].Valid()
    ensures m in Heard(h.Last(clients), a) <==>
            exists b :: b in clients && clients[b].Valid() && Ends(clients[a], clients[b])
                        && clients[b].direction == Lower(clients[b].direction) && clients[b].candidates == m
  {
    var s := h.Last(clients);
    hide Possible, History<M>.Last, CaughtUp, Heard, Ends, Lower;
    hide Client<M>.ListensTo, Client<M>.PublishesTo, Client<M>.Valid;
    if m in Heard(s, a) {
      OnlyOppositesAreHeard(clients, h, a, m);
      var b :| Speaks(clients, a, b, m);
      WhoIsHeard(clients[a], clients[b]);
    }
    if b :| b in clients && clients[b].Valid() && Ends(clients[a], clients[b])
            && clients[b].direction == Lower(clients[b].direction) && clients[b].candidates == m {
      WhoIsHeard(clients[a], clients[b]);
      OppositeIsHeard(clients, h, a, b);
    }
  }

  /** Two opposite ends of one name meet, each having the other's candidates, whatever the order of their requests. */
  lemma PeersMeet<M>(clients: Clients<M>, h: History<M>, a: SubscriberId, b: SubscriberId)
    requires Possible(clients, h) && AllPublished(clients, h.Last(clients))
    requires a in clients && b in clients && clients[a].Valid() && clients[b].Valid()
    requires Ends(clients[a], clients[b])
    requires clients[a].direction == Lower(clients[a].direction) && clients[b].direction == Lower(clients[b].direction)
    requires CaughtUp(h.Last(clients), a) && CaughtUp(h.Last(clients), b)
    ensures clients[b].candidates in Heard(h.Last(clients), a) && clients[a].candidates in Heard(h.Last(clients), b)
  {
    EndsAreSymmetric(clients[a], clients[b]);
    HearsExactlyItsPeers(clients, h, a, clients[b].candidates);
    HearsExactlyItsPeers(clients, h, b, clients[a].candidates);
  }

  // ----- A request registers once -----

  /** How often `k` has registered with a topic. */
  function Registrations<M>(t: Trace<M>, k: SubscriberId): nat {
    if t.Begin? then 0 else Registrations(t.before, k) + if t.e == Register(k) then 1 else 0
  }

  ghost predicate OnceRight<M>(s: ServerState<M>, id: nat, k: SubscriberId) {
    && (k in s.registered ==> k in s.listening && s.listening[k] < |s.topics|)
    && (id < |s.topics| ==>
          Registrations(s.topics[id], k) ==
            if k in s.registered && k in s.listening && s.listening[k] == id then 1 else 0)
  }

  lemma OnceRightStep<M>(clients: Clients<M>, s: ServerState<M>, a: Action<M>, now: real, id: nat, k: SubscriberId)
    requires CanAct(clients, s, a) && OnceRight(s, id, k)
    ensures OnceRight(Act(clients, s, a, now), id, k)
  {
    hide Run, Enabled, Trace<M>.Last, Client<M>.ListensTo, Client<M>.PublishesTo, Client<M>.Valid;
  }

  /** In every run a client registers at most once, with the topic that it looked up; whoever has disconnected stays
      away. */
  lemma {:induction false} RegistersOnce<M>(clients: Clients<M>, h: History<M>, id: nat, k: SubscriberId)
    requires Possible(clients, h)
    ensures OnceRight(h.Last(clients), id, k)
  {
    StartState(clients);
    if h.Next? {
      Unfold(clients, h);
      hide *;
      RegistersOnce(clients, h.before, id, k);
      OnceRightStep(clients, h.before.Last(clients), h.a, h.now, id, k);
    }
  }

  // ----- Meeting is possible -----

  /** A topic in which one message was published to nobody. */
  function Posted<M>(m: M): Trace<M> {
    Then(Then(Begin, Append(m), 0.0), Check, 0.0)
  }

  lemma NewTopicIs<M>()
    ensures Run(Trace<M>.Begin) && Trace<M>.Begin.Last() == NewTopic() && Trace<M>.Begin.Clock() == 0.0
    ensures Trace<M>.Begin.Published() == [] && Trace<M>.Begin.SweptAt() == None
  {
  }

  lemma AppendedIs<M>(m: M)
    ensures var appended := Then(Begin, Append(m), 0.0);
            && Run(appended) && appended.Clock() == 0.0
            && appended.Last() == NewTopic().(log := [Entry(m, 0.0)], lock := Appended(m))
            && appended.Published() == [Entry(m, 0.0)] && appended.SweptAt() == None
  {
    NewTopicIs<M>();
  }

  lemma PostedIs<M>(m: M)
    ensures Run(Posted(m)) && Posted(m).Last() == NewTopic().(log := [Entry(m, 0.0)]) && Posted(m).Clock() == 0.0
    ensures Run(Then(Begin, Append(m), 0.0)) && Then(Begin, Append(m), 0.0).Last().lock == Appended(m)
    ensures Posted(m).Published() == [Entry(m, 0.0)] && Posted(m).SweptAt() == None
  {
    AppendedIs(m);
  }

  lemma Continued<M>(clients: Clients<M>, h: History<M>, a: Action<M>)
    requires Possible(clients, h) && h.Clock() == 0.0 && CanAct(clients, h.Last(clients), a)
    ensures Possible(clients, Next(h, a, 0.0)) && Next(h, a, 0.0).Clock() == 0.0
    ensures Next(h, a, 0.0).Last(clients) == Act(clients, h.Last(clients), a, 0.0)
  {
    hide CanAct, Act;
  }

  /** The server while the first publication of client `c` is logged in a topic that has no key yet. */
  function Publishing<M>(s: ServerState<M>, c: SubscriberId, t: Trace<M>, stage: Stage): ServerState<M> {
    s.(holder := Some(c), topics := s.topics + [t], publications := s.publications[c := Publication(|s.topics|, stage)])
  }

  ghost predicate PublishesAlone<M>(clients: Clients<M>, s: ServerState<M>, c: SubscriberId) {
    && s.holder.None? && c in clients && clients[c].Valid() && c !in s.publications
    && clients[c].PublishesTo() !in s.index
  }

  lemma PublishStarts<M>(clients: Clients<M>, s: ServerState<M>, c: SubscriberId)
    requires PublishesAlone(clients, s, c)
    ensures CanAct(clients, s, StartPublish(c))
    ensures Act(clients, s, StartPublish(c), 0.0) == Publishing(s, c, Begin, Started)
  {
    hide Client<M>.PublishesTo, Client<M>.Valid;
  }

  lemma PublishLogs<M>(clients: Clients<M>, s: ServerState<M>, c: SubscriberId)
    requires PublishesAlone(clients, s, c)
    ensures var u, m := Publishing(s, c, Begin, Started), clients[c].candidates;
            && CanAct(clients, u, InTopic(|s.topics|, Append(m)))
            && Act(clients, u, InTopic(|s.topics|, Append(m)), 0.0) ==
                 Publishing(s, c, Then(Begin, Append(m), 0.0), Logged)
  {
    hide Client<M>.PublishesTo, Client<M>.Valid;
  }

  lemma PublishChecks<M>(clients: Clients<M>, s: ServerState<M>, c: SubscriberId)
    requires PublishesAlone(clients, s, c)
    ensures var m := clients[c].candidates;
            var u := Publishing(s, c, Then(Begin, Append(m), 0.0), Logged);
            && CanAct(clients, u, InTopic(|s.topics|, Check))
            && Act(clients, u, InTopic(|s.topics|, Check), 0.0) == Publishing(s, c, Posted(m), Logged)
  {
    PostedIs(clients[c].candidates);
    hide Client<M>.PublishesTo, Client<M>.Valid, Run, Trace<M>.Last, Step;
  }

  lemma PublishEnds<M>(clients: Clients<M>, s: ServerState<M>, c: SubscriberId)
    requires PublishesAlone(clients, s, c)
    ensures var u := Publishing(s, c, Posted(clients[c].candidates), Logged);
            && CanAct(clients, u, EndPublish(c))
            && Act(clients, u, EndPublish(c), 0.0) ==
                 s.(index := s.index[clients[c].PublishesTo() := |s.topics|],
                    topics := s.topics + [Posted(clients[c].candidates)],
                    publications := s.publications[c := Publication(|s.topics|, Over)])
  {
    PostedIs(clients[c].candidates);
    hide Client<M>.PublishesTo, Client<M>.Valid, Run, Trace<M>.Last, Step, Posted;
  }

  /** A client publishes to a key that has no topic yet. */
  lemma PublishesFirst<M>(clients: Clients<M>, h: History<M>, c: SubscriberId) returns (h': History<M>)
    requires Possible(clients, h) && h.Clock() == 0.0 && PublishesAlone(clients, h.Last(clients), c)
    ensures Possible(clients, h') && h'.Clock() == 0.0
    ensures var s, n := h.Last(clients), |h.Last(clients).topics|;
            h'.Last(clients) == s.(index := s.index[clients[c].PublishesTo() := n],
                                   topics := s.topics + [Posted(clients[c].candidates)],
                                   publications := s.publications[c := Publication(n, Over)])
  {
    var s, m, n := h.Last(clients), clients[c].candidates, |h.Last(clients).topics|;
    PublishStarts(clients, s, c);
    PublishLogs(clients, s, c);
    PublishChecks(clients, s, c);
    PublishEnds(clients, s, c);
    hide *;
    Continued(clients, h, StartPublish(c));
    var started := Next(h, StartPublish(c), 0.0);
    Continued(clients, started, InTopic(n, Append(m)));
    var appended := Next(started, InTopic(n, Append(m)), 0.0);
    Continued(clients, appended, InTopic(n, Check));
    var checked := Next(appended, InTopic(n, Check), 0.0);
    Continued(clients, checked, EndPublish(c));
    h' := Next(checked, EndPublish(c), 0.0);
  }

  /** The topic once a client has registered and copied the log. */
  function Joined<M>(m: M, c: SubscriberId): Trace<M> {
    Then(Then(Posted(m), Register(c), 0.0), Replay(c), 0.0)
  }

  lemma JoinedIs<M>(m: M, c: SubscriberId)
    ensures var registered := Then(Posted(m), Register(c), 0.0);
            && Run(registered) && c in registered.Last().subscribers && !registered.Last().subscribers[c].replayed
            && registered.Last().lock.Free?
    ensures Run(Joined(m, c)) && c in Joined(m, c).Last().subscribers && Joined(m, c).Last().lock.Free?
    ensures Joined(m, c).Last().subscribers[c] == Subscriber(true, [], 0, [m])
    ensures Joined(m, c).Published() == [Entry(m, 0.0)] && Joined(m, c).ReplaySweptAt(c) == None
  {
    PostedIs(m);
    var registered := Then(Posted(m), Register(c), 0.0);
    assert Run(registered);
    assert registered.Last() == Posted(m).Last().(subscribers := map[c := Subscriber(false, [], 0, [])]);
    assert Run(Joined(m, c));
    assert Messages([Entry(m, 0.0)]) == [m];
    assert registered.Published() == [Entry(m, 0.0)] && registered.SweptAt() == None;
  }

  /** The server when client `c` subscribes to topic `id`, where `m` was published to nobody. */
  ghost predicate SubscribesTo<M>(clients: Clients<M>, s: ServerState<M>, c: SubscriberId, id: nat, m: M) {
    && s.holder.None? && c in clients && clients[c].Valid() && c !in s.listening && c !in s.registered
    && id < |s.topics| && s.topics[id] == Posted(m)
    && clients[c].ListensTo() in s.index && s.index[clients[c].ListensTo()] == id
  }

  /** The same after its lookup, with some run of the topic and some clients registered. */
  function Subscribing<M>(
    s: ServerState<M>, c: SubscriberId, id: nat, t: Trace<M>, registered: set<SubscriberId>): ServerState<M>
    requires id < |s.topics|
  {
    s.(listening := s.listening[c := id], topics := s.topics[id := t], registered := registered)
  }

  lemma SubscribeLooksUp<M>(clients: Clients<M>, s: ServerState<M>, c: SubscriberId, id: nat, m: M)
    requires SubscribesTo(clients, s, c, id, m)
    ensures CanAct(clients, s, Lookup(c))
    ensures Act(clients, s, Lookup(c), 0.0) == Subscribing(s, c, id, Posted(m), s.registered)
  {
    hide Client<M>.ListensTo, Client<M>.Valid, Posted;
  }

  lemma SubscribeRegisters<M>(clients: Clients<M>, s: ServerState<M>, c: SubscriberId, id: nat, m: M)
    requires SubscribesTo(clients, s, c, id, m)
    ensures var u := Subscribing(s, c, id, Posted(m), s.registered);
            && CanAct(clients, u, InTopic(id, Register(c)))
            && Act(clients, u, InTopic(id, Register(c)), 0.0) ==
                 Subscribing(s, c, id, Then(Posted(m), Register(c), 0.0), s.registered + {c})
  {
    PostedIs(m);
    hide Client<M>.ListensTo, Client<M>.Valid, Posted, Run, Trace<M>.Last, Step;
  }

  lemma SubscribeCopies<M>(clients: Clients<M>, s: ServerState<M>, c: SubscriberId, id: nat, m: M)
    requires SubscribesTo(clients, s, c, id, m)
    ensures var u := Subscribing(s, c, id, Then(Posted(m), Register(c), 0.0), s.registered + {c});
            && CanAct(clients, u, InTopic(id, Replay(c)))
            && Act(clients, u, InTopic(id, Replay(c)), 0.0) == Subscribing(s, c, id, Joined(m, c), s.registered + {c})
  {
    JoinedIs(m, c);
    hide Client<M>.ListensTo, Client<M>.Valid, Posted, Run, Trace<M>.Last, Step;
  }

  lemma Subscribes<M>(clients: Clients<M>, h: History<M>, c: SubscriberId, id: nat, m: M) returns (h': History<M>)
    requires Possible(clients, h) && h.Clock() == 0.0 && SubscribesTo(clients, h.Last(clients), c, id, m)
    ensures Possible(clients, h') && h'.Clock() == 0.0
    ensures var s := h.Last(clients); h'.Last(clients) == Subscribing(s, c, id, Joined(m, c), s.registered + {c})
  {
    var s := h.Last(clients);
    assert id < |s.topics|;
    SubscribeLooksUp(clients, s, c, id, m);
    SubscribeRegisters(clients, s, c, id, m);
    SubscribeCopies(clients, s, c, id, m);
    hide *;
    Continued(clients, h, Lookup(c));
    var looked := Next(h, Lookup(c), 0.0);
    Continued(clients, looked, InTopic(id, Register(c)));
    var registered := Next(looked, InTopic(id, Register(c)), 0.0);
    Continued(clients, registered, InTopic(id, Replay(c)));
    h' := Next(registered, InTopic(id, Replay(c)), 0.0);
  }

  lemma JoinedIsCaughtUp<M>(s: ServerState<M>, c: SubscriberId, m: M)
    requires c in s.listening && s.listening[c] < |s.topics| && s.topics[s.listening[c]] == Joined(m, c)
    ensures CaughtUp(s, c) && Heard(s, c) == [m]
  {
    JoinedIs(m, c);
    hide Joined, Run, Trace<M>.Last;
  }

  /** Two opposite ends in lower case can meet: there is a run after which both PUBLISH requests are handled, both
      clients have caught up, and each was written the other's candidates and nothing else. */
  lemma PeersCanMeet<M>(a: Client<M>, b: Client<M>)
    requires a.Valid() && b.Valid() && Ends(a, b)
    requires a.direction == Lower(a.direction) && b.direction == Lower(b.direction)
    ensures var clients: Clients<M> := map[0 := a, 1 := b];
            exists h :: Possible(clients, h) && AllPublished(clients, h.Last(clients))
                        && CaughtUp(h.Last(clients), 0) && Heard(h.Last(clients), 0) == [b.candidates]
                        && CaughtUp(h.Last(clients), 1) && Heard(h.Last(clients), 1) == [a.candidates]
  {
    var clients: Clients<M> := map[0 := a, 1 := b];
    PeersShareKeys(a, b);
    hide Ends, Lower, Client<M>.ListensTo, Client<M>.PublishesTo, Client<M>.Valid, Posted, Joined;
    StartState(clients);
    var h0: History<M> := Start;
    assert Possible(clients, h0) && h0.Clock() == 0.0;
    hide Possible, History<M>.Last, CaughtUp, Heard;
    var h1 := PublishesFirst(clients, h0, 0);
    var h2 := PublishesFirst(clients, h1, 1);
    var h3 := Subscribes(clients, h2, 0, 1, b.candidates);
    var h4 := Subscribes(clients, h3, 1, 0, a.candidates);
    JoinedIsCaughtUp(h4.Last(clients), 0, b.candidates);
    JoinedIsCaughtUp(h4.Last(clients), 1, a.candidates);
    assert AllPublished(clients, h4.Last(clients));
  }

  lemma PeersShareKeys<M>(a: Client<M>, b: Client<M>)
    requires a.Valid() && b.Valid() && Ends(a, b)
    requires a.direction == Lower(a.direction) && b.direction == Lower(b.direction)
    ensures b.PublishesTo() == a.ListensTo() && a.PublishesTo() == b.ListensTo() && a.PublishesTo() != b.PublishesTo()
  {
    EndsAreSymmetric(a, b);
    WhoIsHeard(a, b);
    WhoIsHeard(b, a);
    FlipIsAnInvolution(a.direction);
    if a.PublishesTo() == b.PublishesTo() {
      TopicKeyInjective(a.name, a.direction, b.name, b.direction);
    }
  }
}
