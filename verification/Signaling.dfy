/**
  fogrs-signaling/src/lib.rs: topics that replay their log to a new subscriber and then broadcast to it.
 */
module Signaling {
  import opened Wrappers

  // A topic is a state machine over the steps between which the source's tasks can be interleaved.  Publishing holds
  // the log's lock while it appends to the log, looks for receivers, and broadcasts.  Subscribing registers a receiver
  // without any lock and copies the log in a later step.

  type SubscriberId = nat

  /** A published message (a `CandidateStruct`) and the time it was appended. */
  datatype Entry<M> = Entry(message: M, at: real)

  /** The capacity of the broadcast channel; a receiver that falls behind by more loses its oldest message. */
  const BROADCAST_CAPACITY: nat := 100
  const EXPIRATION: real := 60.0

  /** Where the publication that holds the log's lock has got to. */
  datatype Lock<M> = Free | Appended(message: M) | Sending(message: M)

  /** `queue` is what was broadcast and not yet received, `lost` counts what was overwritten in it, and
      `stream` is what was written to the subscriber's connection. */
  datatype Subscriber<M> = Subscriber(replayed: bool, queue: seq<M>, lost: nat, stream: seq<M>) {
    function Offered(m: M): Subscriber<M> {
      if |queue| < BROADCAST_CAPACITY then this.(queue := queue + [m])
      else this.(queue := queue[1..] + [m], lost := lost + 1)
    }

    function Received(): Subscriber<M>
      requires |queue| > 0
    {
      this.(queue := queue[1..], stream := stream + [queue[0]])
    }
  }

  /** `retain` of the cleanup task: the entries not yet expired, in order. */
  function Kept<M>(log: seq<Entry<M>>, now: real): seq<Entry<M>> {
    if |log| == 0 then []
    else Kept(log[..|log| - 1], now) + if now - log[|log| - 1].at < EXPIRATION then [log[|log| - 1]] else []
  }

  function Messages<M>(log: seq<Entry<M>>): (r: seq<M>)
    ensures |r| == |log|
    ensures forall i :: 0 <= i < |log| ==> r[i] == log[i].message
  {
    seq(|log|, i requires 0 <= i < |log| => log[i].message)
  }

  /** `tick` is the time that the cleanup task read before waiting for the lock. */
  datatype Topic<M> = Topic(
    log: seq<Entry<M>>, lock: Lock<M>, subscribers: map<SubscriberId, Subscriber<M>>,
    cleaning: bool, tick: Option<real>)

  datatype Event<M> =
    | Append(message: M) | Check | Send
    | Register(k: SubscriberId) | Replay(k: SubscriberId) | Receive(k: SubscriberId) | Disconnect(k: SubscriberId)
    | Tick | Sweep

  /** Whether a step can happen now; a step that needs the lock waits until it is free. */
  predicate Enabled<M>(t: Topic<M>, e: Event<M>) {
    match e
    case Append(_) => t.lock.Free?
    case Check => t.lock.Appended?
    case Send => t.lock.Sending?
    case Register(k) => k !in t.subscribers
    case Replay(k) => k in t.subscribers && !t.subscribers[k].replayed && t.lock.Free?
    case Receive(k) => k in t.subscribers && t.subscribers[k].replayed && |t.subscribers[k].queue| > 0
    case Disconnect(k) => k in t.subscribers
    case Tick => t.cleaning && t.tick.None?
    case Sweep => t.cleaning && t.tick.Some? && t.lock.Free?
  }

  function Step<M>(t: Topic<M>, e: Event<M>, now: real): Topic<M>
    requires Enabled(t, e)
  {
    match e
    case Append(m) => t.(log := t.log + [Entry(m, now)], lock := Appended(m))
    case Check => t.(lock := if |t.subscribers| > 0 then Sending(t.lock.message) else Free)
    case Send =>
      t.(subscribers := map k | k in t.subscribers :: t.subscribers[k].Offered(t.lock.message), lock := Free)
    case Register(k) => t.(subscribers := t.subscribers[k := Subscriber(false, [], 0, [])])
    case Replay(k) =>
      t.(subscribers := t.subscribers[k := t.subscribers[k].(replayed := true, stream := Messages(t.log))])
    case Receive(k) =>
      t.(subscribers := t.subscribers[k := t.subscribers[k].Received()])
    case Disconnect(k) => t.(subscribers := t.subscribers - {k})
    case Tick => t.(tick := Some(now))
    case Sweep =>
      var log := Kept(t.log, t.tick.value);
      t.(log := log, tick := None, cleaning := |log| > 0 || |t.subscribers| > 0)
  }

  function NewTopic<M>(): Topic<M> {
    Topic([], Free, map[], true, None)
  }

  /** `Topic` of the source; each method is one of the steps above. */
  class LiveTopic<M> {
    var log: seq<Entry<M>>
    var lock: Lock<M>
    var subscribers: map<SubscriberId, Subscriber<M>>
    var cleaning: bool
    var tick: Option<real>

    ghost function View(): Topic<M>
      reads this
    {
      Topic(log, lock, subscribers, cleaning, tick)
    }

    constructor ()
      ensures View() == NewTopic()
    {
      log, lock, subscribers, cleaning, tick := [], Free, map[], true, None;
    }

    method Append(message: M, now: real)
      requires Enabled(View(), Event.Append(message))
      modifies this
      ensures View() == Step(old(View()), Event.Append(message), now)
    {
      log := log + [Entry(message, now)];
      lock := Appended(message);
    }

    method CheckReceivers(now: real)
      requires Enabled(View(), Check)
      modifies this
      ensures View() == Step(old(View()), Check, now)
    {
      if |subscribers| > 0 {
        lock := Sending(lock.message);
      } else {
        lock := Free;
      }
    }

    method Broadcast(now: real)
      requires Enabled(View(), Send)
      modifies this
      ensures View() == Step(old(View()), Send, now)
    {
      var message := lock.message;
      subscribers := map k | k in subscribers :: subscribers[k].Offered(message);
      lock := Free;
    }

    method Register(k: SubscriberId, now: real)
      requires Enabled(View(), Event.Register(k))
      modifies this
      ensures View() == Step(old(View()), Event.Register(k), now)
    {
      subscribers := subscribers[k := Subscriber(false, [], 0, [])];
    }

    /** Copies the log under the lock and writes it to the connection, message by message. */
    method ReplayLog(k: SubscriberId, now: real)
      requires Enabled(View(), Replay(k))
      modifies this
      ensures View() == Step(old(View()), Replay(k), now)
    {
      var copy := log;
      var stream := [];
      for i := 0 to |copy|
        invariant stream == Messages(copy[..i])
      {
        stream := stream + [copy[i].message];
      }
      assert copy[..|copy|] == copy;
      subscribers := subscribers[k := subscribers[k].(replayed := true, stream := stream)];
    }

    method Receive(k: SubscriberId, now: real)
      requires Enabled(View(), Event.Receive(k))
      modifies this
      ensures View() == Step(old(View()), Event.Receive(k), now)
    {
      var s := subscribers[k];
      subscribers := subscribers[k := s.(queue := s.queue[1..], stream := s.stream + [s.queue[0]])];
    }

    method Disconnect(k: SubscriberId, now: real)
      requires Enabled(View(), Event.Disconnect(k))
      modifies this
      ensures View() == Step(old(View()), Event.Disconnect(k), now)
    {
      subscribers := subscribers - {k};
    }

    method Tick(now: real)
      requires Enabled(View(), Event.Tick)
      modifies this
      ensures View() == Step(old(View()), Event.Tick, now)
    {
      tick := Some(now);
    }

    /** `retain` on the log, and the end of the cleanup task for a topic that is empty and unwatched. */
    method Sweep(now: real)
      requires Enabled(View(), Event.Sweep)
      modifies this
      ensures View() == Step(old(View()), Event.Sweep, now)
    {
      log := Kept(log, tick.value);
      tick := None;
      if |log| == 0 && |subscribers| == 0 {
        cleaning := false;
      }
    }
  }

  /** A publication that nothing interrupts. */
  function Publish<M>(t: Topic<M>, m: M, now: real): Topic<M>
    requires t.lock.Free?
  {
    var checked := Step(Step(t, Append(m), now), Check, now);
    if checked.lock.Sending? then Step(checked, Send, now) else checked
  }

  /** `Server` of the source: topics are made on demand and never taken out of the map. */
  class Server<M> {
    var topics: map<string, LiveTopic<M>>

    constructor ()
      ensures topics == map[]
    {
      topics := map[];
    }

    /** SUBSCRIBE: the topic that the request goes on to register with. */
    method HandleSubscribe(key: string) returns (topic: LiveTopic<M>)
      modifies this
      ensures topics == old(topics)[key := topic]
      ensures if key in old(topics) then topic == old(topics)[key] else fresh(topic) && topic.View() == NewTopic()
    {
      if key in topics {
        topic := topics[key];
      } else {
        topic := new LiveTopic();
        topics := topics[key := topic];
      }
    }

    /** PUBLISH, by which a new topic is filled before it enters the map. */
    method HandlePublish(key: string, message: M, now: real)
      requires key in topics ==> topics[key].lock.Free?
      modifies this, if key in topics then {topics[key]} else {}
      ensures key in topics && topics == old(topics)[key := topics[key]]
      ensures key in old(topics) ==> topics[key] == old(topics)[key]
      ensures topics[key].View() ==
                Publish(if key in old(topics) then old(topics[key].View()) else NewTopic(), message, now)
    {
      var topic;
      if key in topics {
        topic := topics[key];
      } else {
        topic := new LiveTopic();
      }
      topic.Append(message, now);
      topic.CheckReceivers(now);
      if topic.lock.Sending? {
        topic.Broadcast(now);
      }
      topics := topics[key := topic];
    }
  }

  // ----- Runs of one topic -----

  datatype Trace<M> = Begin | Then(before: Trace<M>, e: Event<M>, now: real) {
    function Last(): Topic<M>
      requires Run(this)
      decreases this, 1
    {
      if Begin? then NewTopic() else Step(before.Last(), e, now)
    }

    function Clock(): real {
      if Begin? then 0.0 else now
    }

    /** Everything ever appended to the log, in order. */
    function Published(): seq<Entry<M>> {
      if Begin? then []
      else if e.Append? then before.Published() + [Entry(e.message, now)]
      else before.Published()
    }

    /** The time that the last sweep of the log went by. */
    function SweptAt(): Option<real>
      requires Run(this)
    {
      if Begin? then None
      else if e.Sweep? then before.Last().tick
      else before.SweptAt()
    }

    /** How many publications are over. */
    function Completed(): nat
      requires Run(this)
      ensures Completed() <= |Published()|
    {
      LockMeansPublishing(this);
      if Last().lock.Free? then |Published()| else |Published()| - 1
    }

    /** Publications before this one were over when `k` registered. */
    function RegisteredAt(k: SubscriberId): nat
      requires Run(this)
    {
      if Begin? then 0
      else if e == Register(k) then before.Completed()
      else before.RegisteredAt(k)
    }

    /** How many messages had been appended when `k` copied the log. */
    function ReplayedAt(k: SubscriberId): nat {
      if Begin? then 0
      else if e == Replay(k) then |before.Published()|
      else before.ReplayedAt(k)
    }

    /** The time that the last sweep before `k` copied the log went by. */
    function ReplaySweptAt(k: SubscriberId): Option<real>
      requires Run(this)
    {
      if Begin? then None
      else if e == Replay(k) then before.SweptAt()
      else before.ReplaySweptAt(k)
    }
  }

  /** Every step of the trace can happen where it does, and time does not run backwards. */
  ghost predicate Run<M>(t: Trace<M>)
    decreases t, 0
  {
    t.Then? ==> Run(t.before) && Enabled(t.before.Last(), t.e) && t.before.Clock() <= t.now
  }

  /** The lock goes from free to appended, and is free again when the publication is over. */
  lemma LockStep<M>(t: Trace<M>)
    requires Run(t) && t.Then?
    ensures t.e.Append? ==> t.before.Last().lock.Free? && t.Last().lock == Appended(t.e.message)
    ensures !t.e.Append? && t.before.Last().lock.Free? ==> t.Last().lock.Free?
    ensures !t.e.Append? && !t.Last().lock.Free? ==>
              !t.before.Last().lock.Free? && t.Last().lock.message == t.before.Last().lock.message
  {
  }

  lemma {:induction false} LockMeansPublishing<M>(t: Trace<M>)
    requires Run(t)
    ensures !t.Last().lock.Free? ==>
              |t.Published()| > 0 && t.Published()[|t.Published()| - 1].message == t.Last().lock.message
  {
    if t.Then? {
      LockMeansPublishing(t.before);
      LockStep(t);
      hide Step, Enabled, Trace<M>.Last;
    }
  }

  /** The log is written, copied and swept only between publications, and the cleanup task reads the clock again only
      after the sweep that the last reading was for. */
  lemma OneAtATime<M>(t: Trace<M>)
    requires Run(t) && t.Then?
    ensures t.e.Append? || t.e.Replay? || t.e.Sweep? ==> t.before.Completed() == |t.before.Published()|
    ensures t.e.Tick? ==> t.before.Last().cleaning && t.before.Last().tick.None?
  {
  }

  // ----- The log is what the last sweep left of everything published -----

  /** What a sweep that went by the time `swept` leaves of `published`. */
  function Surviving<M>(published: seq<Entry<M>>, swept: Option<real>): seq<Entry<M>> {
    if swept.Some? then Kept(published, swept.value) else published
  }

  lemma KeptSnoc<M>(log: seq<Entry<M>>, e: Entry<M>, now: real)
    ensures Kept(log + [e], now) == Kept(log, now) + if now - e.at < EXPIRATION then [e] else []
  {
    assert (log + [e])[..|log|] == log;
  }

  lemma {:induction false} KeptTwice<M>(log: seq<Entry<M>>, early: real, late: real)
    requires early <= late
    ensures Kept(Kept(log, early), late) == Kept(log, late)
  {
    if |log| > 0 {
      var front, last := log[..|log| - 1], log[|log| - 1];
      KeptTwice(front, early, late);
      if early - last.at < EXPIRATION {
        KeptSnoc(Kept(front, early), last, late);
      } else {
        assert Kept(log, early) == Kept(front, early);
      }
    }
  }

  lemma TickStep<M>(t: Trace<M>)
    requires Run(t) && t.Then?
    ensures t.Last().tick == if t.e.Tick? then Some(t.now) else if t.e.Sweep? then None else t.before.Last().tick
  {
  }

  lemma {:induction false} ClockBounds<M>(t: Trace<M>)
    requires Run(t)
    ensures t.Last().tick.Some? ==> t.Last().tick.value <= t.Clock()
    ensures t.SweptAt().Some? ==> t.SweptAt().value <= t.Clock()
    ensures t.SweptAt().Some? && t.Last().tick.Some? ==> t.SweptAt().value <= t.Last().tick.value
  {
    if t.Then? {
      ClockBounds(t.before);
      TickStep(t);
      hide Step, Enabled, Trace<M>.Last;
    }
  }

  lemma LogStep<M>(t: Trace<M>)
    requires Run(t) && t.Then?
    ensures t.Last().log == if t.e.Append? then t.before.Last().log + [Entry(t.e.message, t.now)]
                            else if t.e.Sweep? && t.before.Last().tick.Some?
                            then Kept(t.before.Last().log, t.before.Last().tick.value)
                            else t.before.Last().log
    ensures t.e.Sweep? ==> t.before.Last().tick.Some?
  {
    hide Kept, Messages;
  }

  /** In every run the log holds, in order, exactly the messages not yet 60 s old at the last sweep. */
  lemma {:induction false} LogIsSurviving<M>(t: Trace<M>)
    requires Run(t)
    ensures t.Last().log == Surviving(t.Published(), t.SweptAt())
  {
    if t.Then? {
      var b := t.before;
      LogIsSurviving(b);
      ClockBounds(b);
      LogStep(t);
      hide Step, Enabled, Trace<M>.Last;
      if t.e.Append? && b.SweptAt().Some? {
        KeptSnoc(b.Published(), Entry(t.e.message, t.now), b.SweptAt().value);
      } else if t.e.Sweep? && b.SweptAt().Some? {
        KeptTwice(b.Published(), b.SweptAt().value, b.Last().tick.value);
      }
    }
  }

  // ----- What a subscriber is sent -----

  lemma {:induction false} PublishedGrows<M>(t: Trace<M>)
    requires Run(t) && t.Then?
    ensures t.before.Completed() <= t.Completed() <= t.before.Completed() + 1
    ensures t.Completed() > t.before.Completed() ==>
              && !t.before.Last().lock.Free?
              && t.Published()[t.before.Completed()].message == t.before.Last().lock.message
    ensures t.before.Published() <= t.Published()
  {
    LockMeansPublishing(t.before);
    LockStep(t);
    hide Step, Enabled, Trace<M>.Last;
  }

  lemma FlagStep<M>(t: Trace<M>, k: SubscriberId)
    requires Run(t) && t.Then? && k in t.Last().subscribers && t.Last().subscribers[k].replayed && t.e != Replay(k)
    ensures t.e != Register(k) && k in t.before.Last().subscribers && t.before.Last().subscribers[k].replayed
  {
  }

  /** A subscriber registers first and copies the log later, and both happened within the history. */
  lemma {:induction false} Milestones<M>(t: Trace<M>, k: SubscriberId)
    requires Run(t)
    ensures t.RegisteredAt(k) <= t.Completed()
    ensures t.ReplayedAt(k) <= |t.Published()|
    ensures k in t.Last().subscribers && t.Last().subscribers[k].replayed ==> t.RegisteredAt(k) <= t.ReplayedAt(k)
  {
    if t.Then? {
      Milestones(t.before, k);
      PublishedGrows(t);
      if k in t.Last().subscribers && t.Last().subscribers[k].replayed && t.e != Replay(k) {
        FlagStep(t, k);
      }
      hide Step, Enabled, Trace<M>.Last;
    }
  }

  /** The messages published from number `i` on whose publication is over. */
  function Since<M>(t: Trace<M>, i: nat): seq<M>
    requires Run(t) && i <= t.Completed()
  {
    Messages(t.Published()[i..t.Completed()])
  }

  /** The part of the log that was not expired when `k` copied it. */
  function Replayed<M>(t: Trace<M>, k: SubscriberId): seq<Entry<M>>
    requires Run(t)
  {
    Milestones(t, k);
    Surviving(t.Published()[..t.ReplayedAt(k)], t.ReplaySweptAt(k))
  }

  /** What `k` was to be sent so far: the log it copied, then every publication since it registered. */
  function Due<M>(t: Trace<M>, k: SubscriberId): seq<M>
    requires Run(t) && k in t.Last().subscribers
  {
    Milestones(t, k);
    (if t.Last().subscribers[k].replayed then Messages(Replayed(t, k)) else []) + Since(t, t.RegisteredAt(k))
  }

  lemma MessagesSnoc<M>(log: seq<Entry<M>>, i: nat, n: nat)
    requires i <= n < |log|
    ensures Messages(log[i..n + 1]) == Messages(log[i..n]) + [log[n].message]
  {
  }

  lemma SamePart<A>(a: seq<A>, b: seq<A>, i: nat, n: nat)
    requires a <= b && i <= n <= |a|
    ensures a[i..n] == b[i..n]
  {
  }

  lemma {:induction false} SinceGrows<M>(t: Trace<M>, i: nat)
    requires Run(t) && t.Then? && i <= t.before.Completed()
    ensures t.before.Completed() <= t.Completed()
    ensures t.Completed() == t.before.Completed() ==> Since(t, i) == Since(t.before, i)
    ensures t.Completed() > t.before.Completed() ==>
              !t.before.Last().lock.Free? && Since(t, i) == Since(t.before, i) + [t.before.Last().lock.message]
  {
    PublishedGrows(t);
    var n := t.before.Completed();
    SamePart(t.before.Published(), t.Published(), i, n);
    if t.Completed() > n {
      MessagesSnoc(t.Published(), i, n);
    }
  }

  lemma ReplayedStays<M>(t: Trace<M>, k: SubscriberId)
    requires Run(t) && t.Then? && t.e != Replay(k)
    ensures Replayed(t, k) == Replayed(t.before, k)
  {
    Milestones(t.before, k);
    assert t.Published()[..t.ReplayedAt(k)] == t.before.Published()[..t.ReplayedAt(k)];
  }

  lemma ReplayCopiesTheLog<M>(t: Trace<M>, k: SubscriberId)
    requires Run(t) && t.Then? && t.e == Replay(k)
    ensures Replayed(t, k) == t.before.Last().log
  {
    LogIsSurviving(t.before);
    assert t.Published()[..t.ReplayedAt(k)] == t.before.Published();
  }

  ghost predicate Served<M>(s: Subscriber<M>, due: seq<M>) {
    && |s.stream| + |s.queue| + s.lost == |due|
    && (s.lost == 0 ==> s.stream + s.queue == due)
    && (!s.replayed ==> s.stream == [])
    && |s.queue| <= 100 && s.queue == due[|due| - |s.queue|..]
  }

  lemma ServedAfterRegister<M>(t: Trace<M>, k: SubscriberId)
    requires Run(t) && t.Then? && t.e == Register(k)
    ensures Served(t.Last().subscribers[k], Due(t, k))
  {
    assert t.Completed() == t.before.Completed();
  }

  lemma ReplayStep<M>(t: Trace<M>, k: SubscriberId)
    requires Run(t) && t.Then? && t.e == Replay(k)
    ensures var s := t.before.Last().subscribers[k];
            && !s.replayed && t.Completed() == t.before.Completed() && t.RegisteredAt(k) == t.before.RegisteredAt(k)
            && t.Last().subscribers[k] == s.(replayed := true, stream := Messages(t.before.Last().log))
  {
  }

  lemma ReplayedIsServed<M>(s: Subscriber<M>, due: seq<M>, log: seq<M>)
    requires Served(s, due) && !s.replayed
    ensures Served(s.(replayed := true, stream := log), log + due)
  {
  }

  lemma DueAfterReplay<M>(t: Trace<M>, k: SubscriberId)
    requires Run(t) && t.Then? && t.e == Replay(k)
    requires k in t.before.Last().subscribers && k in t.Last().subscribers
    ensures Due(t, k) == Messages(t.before.Last().log) + Due(t.before, k)
  {
    ReplayStep(t, k);
    ReplayCopiesTheLog(t, k);
    Milestones(t.before, k);
    SinceGrows(t, t.RegisteredAt(k));
    assert Due(t.before, k) == Since(t.before, t.RegisteredAt(k));
  }

  lemma {:induction false} ServedAfterReplay<M>(t: Trace<M>, k: SubscriberId)
    requires Run(t) && t.Then? && t.e == Replay(k)
    requires k in t.before.Last().subscribers && k in t.Last().subscribers
    requires Served(t.before.Last().subscribers[k], Due(t.before, k))
    ensures Served(t.Last().subscribers[k], Due(t, k))
  {
    ReplayStep(t, k);
    DueAfterReplay(t, k);
    ReplayedIsServed(t.before.Last().subscribers[k], Due(t.before, k), Messages(t.before.Last().log));
  }

  lemma QueueMovesOn<M>(queue: seq<M>, due: seq<M>, m: M)
    requires |queue| <= |due| && queue == due[|due| - |queue|..]
    ensures var later := due + [m];
            && queue + [m] == later[|later| - |queue| - 1..]
            && (|queue| > 0 ==> queue[1..] + [m] == later[|later| - |queue|..])
  {
  }

  lemma OfferedIsServed<M>(s: Subscriber<M>, due: seq<M>, m: M)
    requires Served(s, due)
    ensures Served(s.Offered(m), due + [m])
  {
    QueueMovesOn(s.queue, due, m);
    if s.lost == 0 && |s.queue| < BROADCAST_CAPACITY {
      assert s.stream + (s.queue + [m]) == due + [m];
    }
  }

  lemma ReceivedIsServed<M>(s: Subscriber<M>, due: seq<M>)
    requires Served(s, due) && |s.queue| > 0 && s.replayed
    ensures Served(s.Received(), due)
  {
    assert (s.stream + [s.queue[0]]) + s.queue[1..] == s.stream + s.queue;
  }

  /** The effect of one step on a subscriber that stays connected. */
  lemma SubscriberStep<M>(t: Trace<M>, k: SubscriberId)
    requires Run(t) && t.Then? && t.e != Register(k) && t.e != Replay(k)
    requires k in t.before.Last().subscribers && k in t.Last().subscribers
    ensures var s, s' := t.before.Last().subscribers[k], t.Last().subscribers[k];
            if t.e.Send? then !t.before.Last().lock.Free? && s' == s.Offered(t.before.Last().lock.message)
            else if t.e == Receive(k) then |s.queue| > 0 && s.replayed && s' == s.Received()
            else s' == s
  {
  }

  lemma OnlySendCompletes<M>(t: Trace<M>, k: SubscriberId)
    requires Run(t) && t.Then? && k in t.before.Last().subscribers
    ensures t.Completed() == t.before.Completed() + if t.e.Send? then 1 else 0
  {
  }

  lemma DueAfterOther<M>(t: Trace<M>, k: SubscriberId)
    requires Run(t) && t.Then? && t.e != Register(k) && t.e != Replay(k)
    requires k in t.before.Last().subscribers && k in t.Last().subscribers
    ensures t.e.Send? ==> !t.before.Last().lock.Free? && Due(t, k) == Due(t.before, k) + [t.before.Last().lock.message]
    ensures !t.e.Send? ==> Due(t, k) == Due(t.before, k)
  {
    ReplayedStays(t, k);
    Milestones(t.before, k);
    SinceGrows(t, t.RegisteredAt(k));
    SubscriberStep(t, k);
    OnlySendCompletes(t, k);
    assert t.RegisteredAt(k) == t.before.RegisteredAt(k);
    hide Step, Enabled, Trace<M>.Last, Trace<M>.RegisteredAt, Trace<M>.Completed, Since, Replayed;
    hide Subscriber<M>.Offered, Subscriber<M>.Received;
  }

  lemma {:induction false} ServedAfterOther<M>(t: Trace<M>, k: SubscriberId)
    requires Run(t) && t.Then? && t.e != Register(k) && t.e != Replay(k)
    requires k in t.before.Last().subscribers && k in t.Last().subscribers
    requires Served(t.before.Last().subscribers[k], Due(t.before, k))
    ensures Served(t.Last().subscribers[k], Due(t, k))
  {
    DueAfterOther(t, k);
    SubscriberStep(t, k);
    var s, due := t.before.Last().subscribers[k], Due(t.before, k);
    hide Step, Enabled, Trace<M>.Last, Due, Served, Subscriber<M>.Offered, Subscriber<M>.Received;
    if t.e.Send? {
      OfferedIsServed(s, due, t.before.Last().lock.message);
    } else if t.e == Receive(k) {
      ReceivedIsServed(s, due);
    }
  }

  lemma {:induction false} AlwaysServed<M>(t: Trace<M>, k: SubscriberId)
    requires Run(t) && k in t.Last().subscribers
    ensures Served(t.Last().subscribers[k], Due(t, k))
  {
    if t.e == Register(k) {
      ServedAfterRegister(t, k);
    } else {
      AlwaysServed(t.before, k);
      if t.e == Replay(k) {
        ServedAfterReplay(t, k);
      } else {
        ServedAfterOther(t, k);
      }
    }
  }

  /** After any run, what a connected subscriber was or will be written is the unexpired log as of its copy
      followed by every publication since it registered, exactly when its queue never overflowed.  Its queue are the
      latest of these messages, never more than 100, so what is lost are the oldest that it has not received. */
  lemma StreamIsDue<M>(t: Trace<M>, k: SubscriberId)
    requires Run(t) && k in t.Last().subscribers
    ensures var s := t.Last().subscribers[k];
            && (s.stream + s.queue == Due(t, k) <==> s.lost == 0)
            && |s.stream + s.queue| == |Due(t, k)| - s.lost
            && |s.queue| <= 100 && s.queue == Due(t, k)[|Due(t, k)| - |s.queue|..]
  {
    AlwaysServed(t, k);
  }

  /** How many publications since `k` registered have found its queue full. */
  function Overflows<M>(t: Trace<M>, k: SubscriberId): nat
    requires Run(t)
  {
    if t.Begin? || t.e == Register(k) then 0
    else
      Overflows(t.before, k) +
      if t.e.Send? && k in t.before.Last().subscribers && |t.before.Last().subscribers[k].queue| == 100 then 1 else 0
  }

  /** Each of them has cost the subscriber one message, and nothing else has. */
  lemma {:induction false} LostIsOverflows<M>(t: Trace<M>, k: SubscriberId)
    requires Run(t) && k in t.Last().subscribers
    ensures t.Last().subscribers[k].lost == Overflows(t, k)
  {
    if t.e == Register(k) {
      LostAfterRegister(t, k);
    } else {
      LostStep(t, k);
      LostIsOverflows(t.before, k);
      AlwaysServed(t.before, k);
      hide Step, Enabled, Trace<M>.Last, Due;
    }
  }

  lemma LostAfterRegister<M>(t: Trace<M>, k: SubscriberId)
    requires Run(t) && t.Then? && t.e == Register(k)
    ensures t.Last().subscribers[k].lost == 0
  {
  }

  lemma LostStep<M>(t: Trace<M>, k: SubscriberId)
    requires Run(t) && t.Then? && t.e != Register(k) && k in t.Last().subscribers
    ensures k in t.before.Last().subscribers
    ensures t.Last().subscribers[k].lost == t.before.Last().subscribers[k].lost +
              if t.e.Send? && |t.before.Last().subscribers[k].queue| >= 100 then 1 else 0
  {
    if t.e == Replay(k) {
      ReplayStep(t, k);
    } else if k in t.before.Last().subscribers {
      SubscriberStep(t, k);
    }
  }

  /** Whether `k` has registered and not disconnected since. */
  predicate Subscribed<M>(t: Trace<M>, k: SubscriberId) {
    t.Then? && (t.e == Register(k) || (t.e != Disconnect(k) && Subscribed(t.before, k)))
  }

  lemma {:induction false} SubscribedIs<M>(t: Trace<M>, k: SubscriberId)
    requires Run(t)
    ensures k in t.Last().subscribers <==> Subscribed(t, k)
  {
    if t.Then? {
      SubscribedIs(t.before, k);
      SubscribedStep(t, k);
      hide Step, Enabled, Trace<M>.Last;
    }
  }

  lemma SubscribedStep<M>(t: Trace<M>, k: SubscriberId)
    requires Run(t) && t.Then?
    ensures k in t.Last().subscribers <==>
            t.e == Register(k) || (t.e != Disconnect(k) && k in t.before.Last().subscribers)
  {
  }

  /** A publication that nothing interrupts is logged and offered to everybody who is subscribed; it is over after the
      check exactly when nobody is. */
  lemma PublishOffers<M>(t: Topic<M>, m: M, now: real)
    requires t.lock.Free?
    ensures var p := Publish(t, m, now);
            && p.lock.Free? && p.log == t.log + [Entry(m, now)] && p.cleaning == t.cleaning && p.tick == t.tick
            && p.subscribers.Keys == t.subscribers.Keys
            && forall k :: k in t.subscribers ==> p.subscribers[k] == t.subscribers[k].Offered(m)
    ensures Step(Step(t, Append(m), now), Check, now).lock == if t.subscribers == map[] then Free else Sending(m)
  {
  }

  // ----- How often each message arrives -----

  ghost predicate Distinct<M>(log: seq<Entry<M>>) {
    forall i, j :: 0 <= i < j < |log| ==> log[i].message != log[j].message
  }

  predicate Young<M>(e: Entry<M>, swept: Option<real>) {
    swept.Some? ==> swept.value - e.at < 60.0
  }

  lemma MessagesOfSnoc<M>(log: seq<Entry<M>>, e: Entry<M>)
    ensures Messages(log + [e]) == Messages(log) + [e.message]
  {
  }

  lemma Front<M>(log: seq<Entry<M>>)
    requires |log| > 0
    ensures Messages(log) == Messages(log[..|log| - 1]) + [log[|log| - 1].message]
    ensures Messages(log)[..|log| - 1] == Messages(log[..|log| - 1])
  {
    assert log == log[..|log| - 1] + [log[|log| - 1]];
  }

  lemma {:induction false} NoneOfTheOthers<M>(log: seq<Entry<M>>, now: real, m: M)
    requires m !in Messages(log)
    ensures multiset(Messages(Kept(log, now)))[m] == 0
  {
    if |log| > 0 {
      var front, last := log[..|log| - 1], log[|log| - 1];
      Front(log);
      assert m !in Messages(front) && m != last.message;
      NoneOfTheOthers(front, now, m);
      MessagesOfSnoc(Kept(front, now), last);
      assert Kept(log, now) == Kept(front, now) + if now - last.at < EXPIRATION then [last] else [];
      assert Kept(front, now) + [] == Kept(front, now);
    }
  }

  lemma {:induction false} KeptOnce<M>(log: seq<Entry<M>>, now: real, i: nat)
    requires Distinct(log) && i < |log|
    ensures multiset(Messages(Kept(log, now)))[log[i].message] == if now - log[i].at < EXPIRATION then 1 else 0
  {
    var front, last := log[..|log| - 1], log[|log| - 1];
    Front(log);
    MessagesOfSnoc(Kept(front, now), last);
    assert Kept(front, now) + [] == Kept(front, now);
    if i < |front| {
      KeptOnce(front, now, i);
      assert log[i].message == Messages(front)[i];
    } else {
      NoneOfTheOthers(front, now, last.message);
    }
  }

  lemma SliceOnce<M>(log: seq<Entry<M>>, a: nat, b: nat, i: nat)
    requires Distinct(log) && a <= b <= |log| && i < |log|
    ensures multiset(Messages(log[a..b]))[log[i].message] == if a <= i < b then 1 else 0
  {
    var m := log[i].message;
    if a <= i < b {
      assert Messages(log[a..b]) == Messages(log[a..i]) + [m] + Messages(log[i + 1..b]);
      assert m !in Messages(log[a..i]);
      assert m !in Messages(log[i + 1..b]);
    } else {
      assert m !in Messages(log[a..b]);
    }
  }

  lemma SurvivingOnce<M>(log: seq<Entry<M>>, n: nat, swept: Option<real>, i: nat)
    requires Distinct(log) && n <= |log| && i < |log|
    ensures multiset(Messages(Surviving(log[..n], swept)))[log[i].message] ==
              if i < n && Young(log[i], swept) then 1 else 0
  {
    if swept.None? {
      assert log[..n] == log[0..n];
      SliceOnce(log, 0, n, i);
    } else if i < n {
      KeptOnce(log[..n], swept.value, i);
    } else {
      NoneOfTheOthers(log[..n], swept.value, log[i].message);
    }
  }

  /** How often a drained subscriber whose queue never overflowed was written message number `i`: once from the log
      unless it was appended after the copy or had expired, and once more if it was published since registration.
      As registration comes first, no unexpired message is missed, and one arrives twice only if it was published
      between the two steps. */
  lemma Copies<M>(t: Trace<M>, k: SubscriberId, i: nat)
    requires Run(t) && t.Last().lock.Free? && k in t.Last().subscribers && i < |t.Published()|
    requires var s := t.Last().subscribers[k]; s.replayed && s.lost == 0 && s.queue == []
    requires Distinct(t.Published())
    ensures multiset(t.Last().subscribers[k].stream)[t.Published()[i].message] ==
              (if i < t.ReplayedAt(k) && Young(t.Published()[i], t.ReplaySweptAt(k)) then 1 else 0) +
              (if i >= t.RegisteredAt(k) then 1 else 0)
    ensures t.RegisteredAt(k) <= t.ReplayedAt(k)
  {
    var s, log := t.Last().subscribers[k], t.Published();
    StreamIsDue(t, k);
    Milestones(t, k);
    SurvivingOnce(log, t.ReplayedAt(k), t.ReplaySweptAt(k), i);
    SliceOnce(log, t.RegisteredAt(k), |log|, i);
    assert s.stream + [] == s.stream;
    assert t.Completed() == |log|;
  }

  lemma {:induction false} KeptMember<M>(log: seq<Entry<M>>, now: real, i: nat)
    requires i < |log| && now - log[i].at < EXPIRATION
    ensures log[i].message in Messages(Kept(log, now))
  {
    var front, last := log[..|log| - 1], log[|log| - 1];
    MessagesOfSnoc(Kept(front, now), last);
    if i < |front| {
      KeptMember(front, now, i);
      var j :| 0 <= j < |Kept(front, now)| && Messages(Kept(front, now))[j] == log[i].message;
      assert Messages(Kept(log, now))[j] == log[i].message;
    } else {
      assert Messages(Kept(log, now))[|Kept(front, now)|] == last.message;
    }
  }

  lemma MemberOfPart<M>(log: seq<Entry<M>>, a: nat, b: nat, i: nat)
    requires a <= i < b <= |log|
    ensures log[i].message in Messages(log[a..b])
  {
    assert Messages(log[a..b])[i - a] == log[i].message;
  }

  /** A drained subscriber whose queue never overflowed has every message that was unexpired when it copied the log
      and every one appended since, also when equal messages were published. */
  lemma Arrives<M>(t: Trace<M>, k: SubscriberId, i: nat)
    requires Run(t) && t.Last().lock.Free? && k in t.Last().subscribers && i < |t.Published()|
    requires var s := t.Last().subscribers[k]; s.replayed && s.lost == 0 && s.queue == []
    requires Young(t.Published()[i], t.ReplaySweptAt(k)) || i >= t.RegisteredAt(k)
    ensures t.Published()[i].message in t.Last().subscribers[k].stream
  {
    var s, log := t.Last().subscribers[k], t.Published();
    StreamIsDue(t, k);
    Milestones(t, k);
    assert s.stream + [] == s.stream;
    if i >= t.RegisteredAt(k) {
      MemberOfPart(log, t.RegisteredAt(k), |log|, i);
    } else {
      var n, swept := t.ReplayedAt(k), t.ReplaySweptAt(k);
      if swept.Some? {
        KeptMember(log[..n], swept.value, i);
      } else {
        assert log[..n] == log[0..n];
        MemberOfPart(log, 0, n, i);
      }
    }
  }

  lemma {:induction false} KeptOnlyMembers<M>(log: seq<Entry<M>>, now: real, e: Entry<M>)
    requires e in Kept(log, now)
    ensures e in log
  {
    var front, last := log[..|log| - 1], log[|log| - 1];
    if e != last {
      KeptOnlyMembers(front, now, e);
    }
  }

  lemma SurvivingWasPublished<M>(log: seq<Entry<M>>, n: nat, swept: Option<real>, j: nat)
    requires n <= |log| && j < |Surviving(log[..n], swept)|
    ensures Occurs(log, Surviving(log[..n], swept)[j].message)
  {
    var e := Surviving(log[..n], swept)[j];
    if swept.Some? {
      KeptOnlyMembers(log[..n], swept.value, e);
    }
    var i :| 0 <= i < n && log[..n][i] == e;
    assert log[i].message == e.message;
  }

  ghost predicate Occurs<M>(log: seq<Entry<M>>, m: M) {
    exists i :: 0 <= i < |log| && log[i].message == m
  }

  lemma PartWasPublished<M>(log: seq<Entry<M>>, a: nat, b: nat, j: nat)
    requires a <= b <= |log| && j < b - a
    ensures Occurs(log, Messages(log[a..b])[j])
  {
    assert log[a + j].message == Messages(log[a..b])[j];
  }

  lemma SinceWasPublished<M>(t: Trace<M>, i: nat, j: nat)
    requires Run(t) && i <= t.Completed() && j < |Since(t, i)|
    ensures Occurs(t.Published(), Since(t, i)[j])
  {
    PartWasPublished(t.Published(), i, t.Completed(), j);
  }

  lemma ReplayedWasPublished<M>(t: Trace<M>, k: SubscriberId, j: nat)
    requires Run(t) && j < |Replayed(t, k)|
    ensures Occurs(t.Published(), Messages(Replayed(t, k))[j])
  {
    Milestones(t, k);
    hide Run, Occurs, Kept;
    SurvivingWasPublished(t.Published(), t.ReplayedAt(k), t.ReplaySweptAt(k), j);
  }

  lemma DueWasPublished<M>(t: Trace<M>, k: SubscriberId, j: nat)
    requires Run(t) && k in t.Last().subscribers && j < |Due(t, k)|
    ensures Occurs(t.Published(), Due(t, k)[j])
  {
    Milestones(t, k);
    var replayed := if t.Last().subscribers[k].replayed then Messages(Replayed(t, k)) else [];
    var since := Since(t, t.RegisteredAt(k));
    assert Due(t, k) == replayed + since;
    hide *;
    if j < |replayed| {
      ReplayedWasPublished(t, k, j);
    } else {
      SinceWasPublished(t, t.RegisteredAt(k), j - |replayed|);
    }
  }

  /** A subscriber is written nothing that was not published. */
  lemma NothingElseArrives<M>(t: Trace<M>, k: SubscriberId, m: M)
    requires Run(t) && k in t.Last().subscribers && t.Last().subscribers[k].lost == 0
    requires m in t.Last().subscribers[k].stream
    ensures Occurs(t.Published(), m)
  {
    var s := t.Last().subscribers[k];
    StreamIsDue(t, k);
    hide Run, Trace<M>.Last, Due;
    var j :| 0 <= j < |s.stream| && s.stream[j] == m;
    assert Due(t, k)[j] == m;
    DueWasPublished(t, k, j);
  }

  // ----- The cleanup task ends while its topic lives on -----

  /** By this reading of the clock everything in a log is as old as it may get. */
  ghost predicate AllExpired<M>(log: seq<Entry<M>>, now: real) {
    forall i :: 0 <= i < |log| ==> now - log[i].at >= 60.0
  }

  lemma {:induction false} NoneKept<M>(log: seq<Entry<M>>, now: real)
    ensures Kept(log, now) == [] <==> AllExpired(log, now)
  {
    if |log| > 0 {
      var front := log[..|log| - 1];
      NoneKept(front, now);
      assert AllExpired(log, now) <==> AllExpired(front, now) && now - log[|front|].at >= EXPIRATION;
    }
  }

  /** Some sweep of the run met nobody subscribed and nothing unexpired among everything published by then. */
  ghost predicate FoundIdle<M>(t: Trace<M>)
    requires Run(t)
  {
    && t.Then?
    && (|| FoundIdle(t.before)
        || (&& t.e.Sweep? && t.before.Last().subscribers == map[]
            && AllExpired(t.before.Published(), t.before.Last().tick.value)))
  }

  lemma CleaningStep<M>(t: Trace<M>)
    requires Run(t) && t.Then?
    ensures t.e.Sweep? ==> t.before.Last().cleaning && t.before.Last().tick.Some? && t.before.Last().lock.Free?
    ensures t.e.Sweep? ==> t.Last().tick.None? && t.Last().lock.Free?
    ensures t.e.Sweep? ==> (t.Last().cleaning <==> t.Last().log != [] || t.before.Last().subscribers != map[])
    ensures !t.e.Sweep? ==> t.Last().cleaning == t.before.Last().cleaning
  {
    hide Kept;
  }

  /** A sweep goes through the log, but it is as if it went through everything ever published. */
  lemma SweepOfEverything<M>(t: Trace<M>)
    requires Run(t) && t.Then? && t.e.Sweep?
    ensures t.before.Last().tick.Some?
    ensures t.Last().log == Kept(t.before.Published(), t.before.Last().tick.value)
  {
    LogStep(t);
    LogIsSurviving(t.before);
    ClockBounds(t.before);
    hide Step, Enabled, Trace<M>.Last, Kept;
    if t.before.SweptAt().Some? {
      KeptTwice(t.before.Published(), t.before.SweptAt().value, t.before.Last().tick.value);
    }
  }

  /** In every run the cleanup task is gone exactly when it once found its topic idle. */
  lemma {:induction false} CleanupEndsWhenIdle<M>(t: Trace<M>)
    requires Run(t)
    ensures !t.Last().cleaning <==> FoundIdle(t)
  {
    if t.Then? {
      CleanupEndsWhenIdle(t.before);
      CleaningStep(t);
      if t.e.Sweep? {
        SweepOfEverything(t);
        NoneKept(t.before.Published(), t.before.Last().tick.value);
      }
      hide Step, Enabled, Trace<M>.Last, Kept, AllExpired;
    }
  }

  /** Whether the run `t` continues the run `start`. */
  predicate Continues<M(==)>(t: Trace<M>, start: Trace<M>) {
    t == start || (t.Then? && Continues(t.before, start))
  }

  /** The cleanup task of a topic that was once found idle is gone, although the topic stays in use: from then on
      nothing expires, and every message is replayed to whoever subscribes later, however old. */
  lemma {:induction false} NothingExpiresAfterCleanup<M>(t: Trace<M>, start: Trace<M>)
    requires Run(t) && Run(start) && Continues(t, start) && FoundIdle(start)
    ensures FoundIdle(t) && t.SweptAt() == start.SweptAt()
    ensures start.Published() <= t.Published()
    ensures t.Last().log == start.Last().log + t.Published()[|start.Published()|..]
  {
    if t != start {
      NothingExpiresAfterCleanup(t.before, start);
      CleanupEndsWhenIdle(t.before);
      NoSweepWhenIdle(t);
      LogStep(t);
      hide Step, Enabled, Trace<M>.Last, Kept, AllExpired;
    }
  }

  lemma NoSweepWhenIdle<M>(t: Trace<M>)
    requires Run(t) && t.Then? && !t.before.Last().cleaning
    ensures !t.e.Sweep?
  {
  }

  lemma {:induction false} ContinuesOn<M>(t: Trace<M>, middle: Trace<M>, start: Trace<M>)
    requires Continues(t, middle) && Continues(middle, start)
    ensures Continues(t, start)
  {
    if t != middle {
      ContinuesOn(t.before, middle, start);
    }
  }

  lemma {:induction false} LogIsPast<M>(t: Trace<M>, e: Entry<M>)
    requires Run(t) && e in t.Last().log
    ensures e.at <= t.Clock()
  {
    LogStep(t);
    hide Step, Enabled, Trace<M>.Last;
    if e in t.before.Last().log {
      LogIsPast(t.before, e);
    } else if t.e.Sweep? {
      KeptOnlyMembers(t.before.Last().log, t.before.Last().tick.value, e);
    }
  }

  /** `free` continues `t` at once, to where nobody holds the lock, without touching what the cleanup task looks at. */
  ghost predicate LetsGo<M>(free: Trace<M>, t: Trace<M>)
    requires Run(t)
  {
    && Run(free) && Continues(free, t) && free.Clock() == t.Clock() && free.Last().lock.Free?
    && free.Last().log == t.Last().log && free.Last().cleaning == t.Last().cleaning
    && free.Last().subscribers.Keys == t.Last().subscribers.Keys && free.Published() == t.Published()
  }

  lemma ReleaseStep<M>(t: Trace<M>)
    requires Run(t) && t.Then?
    ensures t.e.Check? ==> if t.before.Last().subscribers == map[] then t.Last().lock.Free? else t.Last().lock.Sending?
    ensures t.e.Send? ==> t.Last().lock.Free?
    ensures t.e.Check? || t.e.Send? ==> t.Last().subscribers.Keys == t.before.Last().subscribers.Keys
  {
  }

  /** A publication that has looked for receivers can be over at once. */
  lemma SendingLetsGo<M>(t: Trace<M>, start: Trace<M>)
    requires Run(t) && Run(start) && Continues(t, start) && t.Clock() == start.Clock() && !t.Last().lock.Appended?
    requires t.Last().log == start.Last().log && t.Last().cleaning == start.Last().cleaning
    requires t.Last().subscribers.Keys == start.Last().subscribers.Keys && t.Published() == start.Published()
    ensures exists free :: LetsGo(free, start)
  {
    if t.Last().lock.Free? {
      assert LetsGo(t, start);
    } else {
      var free := Then(t, Send, t.Clock());
      assert Run(free) && Continues(free, start);
      ReleaseStep(free);
      LogStep(free);
      CleaningStep(free);
      hide Step, Enabled, Trace<M>.Last;
      assert LetsGo(free, start);
    }
  }

  /** Whoever holds the lock can let go of it at once. */
  lemma LetGo<M>(t: Trace<M>)
    requires Run(t)
    ensures exists free :: LetsGo(free, t)
  {
    if t.Last().lock.Appended? {
      var checked := Then(t, Check, t.Clock());
      assert Run(checked) && Continues(checked, t);
      ReleaseStep(checked);
      LogStep(checked);
      CleaningStep(checked);
      hide Step, Enabled, Trace<M>.Last;
      SendingLetsGo(checked, t);
    } else {
      SendingLetsGo(t, t);
    }
  }

  /** A cleanup task that is about to read the clock can find everything expired. */
  lemma SweepItAll<M>(t: Trace<M>)
    requires Run(t) && t.Last().cleaning && t.Last().tick.None? && t.Last().lock.Free?
    ensures exists swept :: Run(swept) && Continues(swept, t) && swept.Last().log == []
  {
    var late := t.Clock() + EXPIRATION;
    var ticked := Then(t, Tick, late);
    var swept := Then(ticked, Sweep, late);
    forall i | 0 <= i < |t.Last().log| ensures late - t.Last().log[i].at >= EXPIRATION {
      LogIsPast(t, t.Last().log[i]);
    }
    NoneKept(t.Last().log, late);
    assert Run(ticked) && ticked.Last() == t.Last().(tick := Some(late));
    assert Run(swept) && Continues(swept, t) && swept.Last().log == [];
  }

  /** As long as the cleanup task has not ended, a topic with a log can come to drop what is in it. */
  lemma LogCanExpire<M>(start: Trace<M>)
    requires Run(start) && start.Last().log != [] && start.Last().cleaning
    ensures exists t :: Run(t) && Continues(t, start) && t.Last().log == []
  {
    LetGo(start);
    var t :| LetsGo(t, start);
    if t.Last().tick.Some? {
      var pending := Then(t, Sweep, t.Clock());
      assert Run(pending) && Continues(pending, t);
      CleaningStep(pending);
      ContinuesOn(pending, t, start);
      t := pending;
    }
    if t.Last().log != [] {
      SweepItAll(t);
      var swept :| Run(swept) && Continues(swept, t) && swept.Last().log == [];
      ContinuesOn(swept, t, start);
    }
  }

  /** A run can still be continued so that something in the log expires exactly when its cleanup task has not yet
      found the topic idle. */
  lemma ExpiresUnlessFoundIdle<M>(start: Trace<M>)
    requires Run(start) && start.Last().log != []
    ensures (exists t :: Run(t) && Continues(t, start) && !(start.Last().log <= t.Last().log)) <==> !FoundIdle(start)
  {
    CleanupEndsWhenIdle(start);
    if FoundIdle(start) {
      forall t | Run(t) && Continues(t, start) ensures start.Last().log <= t.Last().log {
        NothingExpiresAfterCleanup(t, start);
      }
    } else {
      LogCanExpire(start);
      var t :| Run(t) && Continues(t, start) && t.Last().log == [];
      assert Run(t) && Continues(t, start) && !(start.Last().log <= t.Last().log);
    }
  }

  /** `k` has been written everything due to it by `t`, and nobody is publishing. */
  ghost predicate UpToDate<M>(t: Trace<M>, k: SubscriberId)
    requires Run(t)
  {
    && t.Last().lock.Free? && k in t.Last().subscribers
    && t.Last().subscribers[k].replayed && t.Last().subscribers[k].queue == []
  }

  lemma ReceiveStep<M>(t: Trace<M>, k: SubscriberId)
    requires Run(t) && k in t.Last().subscribers && t.Last().subscribers[k].replayed && t.Last().lock.Free?
    requires t.Last().subscribers[k].queue != []
    ensures var r := Then(t, Receive(k), t.Clock());
            && Run(r) && Continues(r, t) && r.Last().lock.Free? && k in r.Last().subscribers
            && r.Last().subscribers[k].replayed
            && |r.Last().subscribers[k].queue| == |t.Last().subscribers[k].queue| - 1
  {
  }

  lemma {:induction false} CanDrain<M>(t: Trace<M>, k: SubscriberId)
    requires Run(t) && k in t.Last().subscribers && t.Last().subscribers[k].replayed && t.Last().lock.Free?
    ensures exists d :: Run(d) && Continues(d, t) && UpToDate(d, k) && d.Published() == t.Published()
    decreases |t.Last().subscribers[k].queue|
  {
    if t.Last().subscribers[k].queue == [] {
      assert Run(t) && Continues(t, t) && UpToDate(t, k) && t.Published() == t.Published();
    } else {
      var r := Then(t, Receive(k), t.Clock());
      ReceiveStep(t, k);
      CanDrain(r, k);
      var d :| Run(d) && Continues(d, r) && UpToDate(d, k) && d.Published() == r.Published();
      assert r.Published() == t.Published();
      hide *;
      ContinuesOn(d, r, t);
    }
  }

  lemma ReplayAtOnce<M>(t: Trace<M>, k: SubscriberId)
    requires Run(t) && k in t.Last().subscribers && !t.Last().subscribers[k].replayed && t.Last().lock.Free?
    ensures var r := Then(t, Replay(k), t.Clock());
            Run(r) && Continues(r, t) && k in r.Last().subscribers && r.Last().subscribers[k].replayed
            && r.Last().lock.Free?
  {
  }

  /** Nobody is shut out: wherever a run stands, every subscriber can be written all that is due to it without anything
      more being published. */
  lemma EveryoneCanCatchUp<M>(t: Trace<M>, k: SubscriberId)
    requires Run(t) && k in t.Last().subscribers
    ensures exists d :: Run(d) && Continues(d, t) && UpToDate(d, k) && d.Published() == t.Published()
  {
    LetGo(t);
    var free :| LetsGo(free, t);
    assert k in free.Last().subscribers;
    var copied := free;
    assert Continues(copied, free);
    if !free.Last().subscribers[k].replayed {
      copied := Then(free, Replay(k), free.Clock());
      ReplayAtOnce(free, k);
    }
    hide Step, Enabled, Trace<M>.Last, UpToDate;
    CanDrain(copied, k);
    var d :| Run(d) && Continues(d, copied) && UpToDate(d, k) && d.Published() == copied.Published();
    assert copied.Published() == t.Published();
    ContinuesOn(copied, free, t);
    ContinuesOn(d, copied, t);
  }

  /** Wherever a run stands, whoever is not subscribed can subscribe at once, and another message can be published as
      soon as the lock is free, which it can be at once. */
  lemma NobodyIsShutOut<M>(t: Trace<M>, k: SubscriberId, m: M)
    requires Run(t)
    ensures !Subscribed(t, k) ==> Run(Then(t, Register(k), t.Clock())) && Subscribed(Then(t, Register(k), t.Clock()), k)
    ensures exists free :: LetsGo(free, t) && Run(Then(free, Append(m), t.Clock()))
  {
    SubscribedIs(t, k);
    LetGo(t);
    var free :| LetsGo(free, t);
    assert Run(Then(free, Append(m), t.Clock()));
  }

  /** The cleanup task's first pass comes at once, so it can find the topic idle before its first message. */
  lemma CleanupCanEndAtOnce<M>(m: M, age: real)
    requires age >= 60.0
    ensures exists t: Trace<M> :: Run(t) && t.Clock() == age && FoundIdle(t) && t.Last().log == [Entry(m, 0.0)]
  {
    var cleaned := Then(Then(Begin, Tick, 0.0), Sweep, 0.0);
    var appended := Then(cleaned, Append(m), 0.0);
    var t := Then(appended, Check, age);
    assert Run(cleaned) && cleaned.Last() == NewTopic().(cleaning := false);
    assert Run(appended) && appended.Clock() == 0.0 && appended.Last().log == [Entry(m, 0.0)];
    assert Run(t) && t.Last().log == [Entry(m, 0.0)] && !t.Last().cleaning;
    CleanupEndsWhenIdle(t);
  }
}
