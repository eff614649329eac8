/**
  fogrs-kcp/src/skcp.rs: the socket that tasks poll to send and receive over one KCP connection.
  The `kcp` crate is seen only through the values it shows; what it does to them is left open.
 */
module KcpSocket {
  import opened Wrappers
  import opened PacketStructs

  /** `ready` are the whole messages that can be received.  A message of which only part is there counts as not there:
      the socket asks the crate only for the size of the next whole message, and waits whatever the reason for none. */
  datatype Kcp = Kcp(
    ready: seq<Bytes>, waitSnd: nat, sndWnd: nat, rmtWnd: nat, waitingConv: bool, mss: nat)
  {
    /** No room to send. */
    predicate Blocked() {
      waitSnd >= sndWnd || waitSnd >= rmtWnd || waitingConv
    }

    function PeekSize(): Option<nat> {
      if |ready| > 0 then Some(|ready[0]|) else None
    }

    predicate Readable() {
      PeekSize().Some? && PeekSize().value > 0
    }

    function Received(): Kcp
      requires |ready| > 0
    {
      this.(ready := ready[1..])
    }
  }

  /** A task, through one of the handles by which it can be woken; two wakers are known to wake the same task only
      when they are equal. */
  datatype Waker = Waker(task: nat, handle: nat)

  datatype Side = Sending | Receiving

  /** What tasks were told, in order. */
  datatype Notice = Pending(side: Side, task: nat) | Woken(task: nat)

  datatype State = State(
    kcp: Kcp, sentFirst: bool, sender: Option<Waker>, receiver: Option<Waker>, closed: bool, log: seq<Notice>)
  {
    function Stored(side: Side): Option<Waker> {
      match side
      case Sending => sender
      case Receiving => receiver
    }
  }

  function Wakes(w: Option<Waker>): seq<Notice> {
    if w.Some? then [Woken(w.value.task)] else []
  }

  /** Whoever a newly stored waker pushes out is woken, unless the two are known to be the same. */
  function Replaces(stored: Option<Waker>, w: Waker): seq<Notice> {
    if stored.Some? && stored.value != w then [Woken(stored.value.task)] else []
  }

  // ----- One step each -----

  predicate SendWaits(s: State) {
    !s.closed && s.sentFirst && s.kcp.Blocked()
  }

  /** `accepted` says whether the crate took the bytes, and `after` is what it then looks like. */
  function PollSend(s: State, w: Waker, accepted: bool, after: Kcp): State {
    if s.closed then s
    else if SendWaits(s) then
      s.(sender := Some(w), log := s.log + Replaces(s.sender, w) + [Pending(Sending, w.task)])
    else s.(kcp := after, sentFirst := s.sentFirst || accepted)
  }

  /** Receiving waits when there is nothing, only part of a message, or a message without bytes. */
  predicate ReceiveWaits(s: State) {
    !s.closed && (s.kcp.PeekSize().None? || s.kcp.PeekSize().value == 0)
  }

  function PollRecv(s: State, w: Waker, room: nat): State {
    if s.closed then s
    else if ReceiveWaits(s) then
      s.(kcp := if |s.kcp.ready| > 0 then s.kcp.Received() else s.kcp,
         receiver := Some(w), log := s.log + Replaces(s.receiver, w) + [Pending(Receiving, w.task)])
    else if s.kcp.PeekSize().value > room then s
    else s.(kcp := s.kcp.Received())
  }

  function WakeSender(s: State): State {
    if s.sender.Some? && !s.kcp.Blocked() then s.(sender := None, log := s.log + Wakes(s.sender)) else s
  }

  function WakeReceiver(s: State): State {
    if s.receiver.Some? && s.kcp.Readable() then s.(receiver := None, log := s.log + Wakes(s.receiver)) else s
  }

  function TryWake(s: State): State {
    WakeReceiver(WakeSender(s))
  }

  /** `complete` says whether the crate took the packet and no flush of acknowledgements failed. */
  function Input(s: State, complete: bool, after: Kcp): State {
    if complete then TryWake(s.(kcp := after)) else s.(kcp := after)
  }

  function Update(s: State, ok: bool, after: Kcp): State {
    if ok then TryWake(s.(kcp := after)) else s.(kcp := after)
  }

  function Close(s: State): State {
    s.(closed := true, sender := None, receiver := None, log := s.log + Wakes(s.sender) + Wakes(s.receiver))
  }

  datatype Event =
    | SendPolled(w: Waker, accepted: bool, after: Kcp)
    | RecvPolled(w: Waker, room: nat)
    | Came(complete: bool, after: Kcp)
    | Ticked(ok: bool, after: Kcp)
    | Closed

  function Next(s: State, e: Event): State {
    match e
    case SendPolled(w, accepted, after) => PollSend(s, w, accepted, after)
    case RecvPolled(w, room) => PollRecv(s, w, room)
    case Came(complete, after) => Input(s, complete, after)
    case Ticked(ok, after) => Update(s, ok, after)
    case Closed => Close(s)
  }

  /** A new socket after the events, oldest first. */
  function After(kcp: Kcp, events: seq<Event>): State {
    if |events| == 0 then State(kcp, false, None, None, false, [])
    else Next(After(kcp, events[..|events| - 1]), events[|events| - 1])
  }

  // ----- No lost wake-up -----

  /** The `i`-th notice, if it told a task to wait, was followed by a wake-up, or the waker is stored. */
  ghost predicate Kept(s: State, i: nat) {
    i < |s.log| && s.log[i].Pending? ==>
      || (exists j :: i < j < |s.log| && s.log[j] == Woken(s.log[i].task))
      || (s.Stored(s.log[i].side).Some? && s.Stored(s.log[i].side).value.task == s.log[i].task)
  }

  ghost predicate NoLostWakeUp(s: State) {
    forall i :: 0 <= i < |s.log| ==> Kept(s, i)
  }

  /** Nothing is lost as long as each waker that goes away is replaced by the same or woken in the new notices. */
  lemma LogGrows(s: State, s': State, more: seq<Notice>)
    requires NoLostWakeUp(s) && s'.log == s.log + more
    requires forall side :: s.Stored(side).Some? && s'.Stored(side) != s.Stored(side) ==>
               Woken(s.Stored(side).value.task) in more
    requires forall i :: 0 <= i < |more| && more[i].Pending? ==>
               s'.Stored(more[i].side).Some? && s'.Stored(more[i].side).value.task == more[i].task
    ensures NoLostWakeUp(s')
  {
    forall i | 0 <= i < |s'.log| ensures Kept(s', i) {
      if i < |s.log| {
        assert Kept(s, i) && s'.log[i] == s.log[i];
        if s.log[i].Pending? {
          var side := s.log[i].side;
          if j :| i < j < |s.log| && s.log[j] == Woken(s.log[i].task) {
            assert s'.log[j] == Woken(s'.log[i].task);
          } else if s'.Stored(side) != s.Stored(side) {
            var j :| 0 <= j < |more| && more[j] == Woken(s.log[i].task);
            assert s'.log[|s.log| + j] == Woken(s'.log[i].task);
          }
        }
      } else {
        assert s'.log[i] == more[i - |s.log|];
      }
    }
  }

  lemma PollSendKeeps(s: State, w: Waker, accepted: bool, after: Kcp)
    requires NoLostWakeUp(s)
    ensures NoLostWakeUp(PollSend(s, w, accepted, after))
  {
    if SendWaits(s) {
      LogGrows(s, PollSend(s, w, accepted, after), Replaces(s.sender, w) + [Pending(Sending, w.task)]);
    } else {
      LogGrows(s, PollSend(s, w, accepted, after), []);
    }
  }

  lemma PollRecvKeeps(s: State, w: Waker, room: nat)
    requires NoLostWakeUp(s)
    ensures NoLostWakeUp(PollRecv(s, w, room))
  {
    if ReceiveWaits(s) {
      LogGrows(s, PollRecv(s, w, room), Replaces(s.receiver, w) + [Pending(Receiving, w.task)]);
    } else {
      LogGrows(s, PollRecv(s, w, room), []);
    }
  }

  lemma TryWakeKeeps(s: State)
    requires NoLostWakeUp(s)
    ensures NoLostWakeUp(TryWake(s))
  {
    var t := WakeSender(s);
    LogGrows(s, t, if t == s then [] else Wakes(s.sender));
    LogGrows(t, WakeReceiver(t), if WakeReceiver(t) == t then [] else Wakes(t.receiver));
  }

  lemma CloseKeeps(s: State)
    requires NoLostWakeUp(s)
    ensures NoLostWakeUp(Close(s))
  {
    LogGrows(s, Close(s), Wakes(s.sender) + Wakes(s.receiver));
  }

  lemma KcpChangeKeeps(s: State, after: Kcp)
    requires NoLostWakeUp(s)
    ensures NoLostWakeUp(s.(kcp := after))
  {
    LogGrows(s, s.(kcp := after), []);
  }

  lemma StepKeeps(s: State, e: Event)
    requires NoLostWakeUp(s)
    ensures NoLostWakeUp(Next(s, e))
  {
    match e
    case SendPolled(w, accepted, after) => PollSendKeeps(s, w, accepted, after);
    case RecvPolled(w, room) => PollRecvKeeps(s, w, room);
    case Came(_, after) =>
      KcpChangeKeeps(s, after);
      TryWakeKeeps(s.(kcp := after));
    case Ticked(_, after) =>
      KcpChangeKeeps(s, after);
      TryWakeKeeps(s.(kcp := after));
    case Closed => CloseKeeps(s);
  }

  /** In every run, each task told to wait is stored or was woken since. */
  lemma {:induction false} NoWakeUpIsLost(kcp: Kcp, events: seq<Event>)
    ensures NoLostWakeUp(After(kcp, events))
  {
    if |events| > 0 {
      NoWakeUpIsLost(kcp, events[..|events| - 1]);
      StepKeeps(After(kcp, events[..|events| - 1]), events[|events| - 1]);
    }
  }

  /** The `i`-th notice told a task to wait and nothing has woken it since. */
  ghost predicate StillWaits(s: State, i: nat) {
    i < |s.log| && s.log[i].Pending? && forall j :: i < j < |s.log| ==> s.log[j] != Woken(s.log[i].task)
  }

  predicate Wakeful(e: Event) {
    (e.Came? && e.complete) || (e.Ticked? && e.ok)
  }

  /** In every run that ends in an update, or in an input that was carried through, a task that still waits to send
      finds no room or no conversation number, and one that still waits to receive finds nothing to read. */
  lemma WaitsForAReason(kcp: Kcp, events: seq<Event>, i: nat)
    requires |events| > 0 && Wakeful(events[|events| - 1])
    requires StillWaits(After(kcp, events), i)
    ensures var s := After(kcp, events);
            match s.log[i].side
            case Sending =>
              s.sender.Some? &&
              (s.kcp.waitSnd >= s.kcp.sndWnd || s.kcp.waitSnd >= s.kcp.rmtWnd || s.kcp.waitingConv)
            case Receiving => s.receiver.Some? && (s.kcp.ready == [] || s.kcp.ready[0] == [])
  {
    NoWakeUpIsLost(kcp, events);
    assert Kept(After(kcp, events), i);
  }

  /** Something was sent before the socket was closed: from then on sending waits for room. */
  ghost predicate HasSent(events: seq<Event>) {
    exists j :: 0 <= j < |events| && events[j].SendPolled? && events[j].accepted && !HasClosed(events[..j])
  }

  ghost predicate HasClosed(events: seq<Event>) {
    exists j :: 0 <= j < |events| && events[j] == Closed
  }

  lemma {:induction false} ClosedMeansClosed(kcp: Kcp, events: seq<Event>)
    ensures After(kcp, events).closed <==> HasClosed(events)
  {
    if |events| > 0 {
      var front, e := events[..|events| - 1], events[|events| - 1];
      ClosedMeansClosed(kcp, front);
      FlagsStep(After(kcp, front), e);
      assert HasClosed(events) <==> HasClosed(front) || e == Closed;
      hide Next;
    }
  }

  lemma FlagsStep(s: State, e: Event)
    ensures Next(s, e).closed <==> s.closed || e == Closed
    ensures Next(s, e).sentFirst <==> s.sentFirst || (e.SendPolled? && e.accepted && !s.closed)
  {
  }

  lemma {:induction false} SentMeansSent(kcp: Kcp, events: seq<Event>)
    ensures After(kcp, events).sentFirst <==> HasSent(events)
  {
    if |events| > 0 {
      var front, e := events[..|events| - 1], events[|events| - 1];
      SentMeansSent(kcp, front);
      ClosedMeansClosed(kcp, front);
      FlagsStep(After(kcp, front), e);
      assert forall j :: 0 <= j < |front| ==> events[..j] == front[..j];
      hide Next, HasClosed;
    }
  }

  /** In every run a poll to send is refused exactly after the close; it waits exactly when something was sent before
      and the local window is full, the remote window is full, or a conversation number is awaited; and otherwise it
      hands the bytes to the crate and stores nobody. */
  lemma SendsWithRoom(kcp: Kcp, events: seq<Event>, w: Waker, accepted: bool, after: Kcp)
    ensures var s := After(kcp, events);
            var s' := After(kcp, events + [SendPolled(w, accepted, after)]);
            if HasClosed(events) then s' == s
            else if HasSent(events) &&
                    (s.kcp.waitSnd >= s.kcp.sndWnd || s.kcp.waitSnd >= s.kcp.rmtWnd || s.kcp.waitingConv)
            then && s'.sender == Some(w) && s'.kcp == s.kcp
                 && |s'.log| > 0 && s'.log[|s'.log| - 1] == Pending(Sending, w.task)
            else s'.kcp == after && s'.log == s.log && s'.sender == s.sender && s'.receiver == s.receiver
  {
    var e := SendPolled(w, accepted, after);
    assert (events + [e])[..|events|] == events;
    ClosedMeansClosed(kcp, events);
    SentMeansSent(kcp, events);
  }

  /** In every run a poll to receive finds the end after the close; it waits exactly when no message is there or the
      first one has no bytes, which it then drops; a message that does not fit stays where it is, and any other is
      taken. */
  lemma ReceivesInOrder(kcp: Kcp, events: seq<Event>, w: Waker, room: nat)
    ensures var s := After(kcp, events);
            var s' := After(kcp, events + [RecvPolled(w, room)]);
            if HasClosed(events) then s' == s
            else if s.kcp.ready == [] || s.kcp.ready[0] == []
            then && s'.receiver == Some(w) && |s'.log| > 0 && s'.log[|s'.log| - 1] == Pending(Receiving, w.task)
                 && s'.kcp == s.kcp.(ready := if s.kcp.ready == [] then [] else s.kcp.ready[1..])
            else if |s.kcp.ready[0]| > room then s' == s
            else s' == s.(kcp := s.kcp.(ready := s.kcp.ready[1..]))
  {
    var e := RecvPolled(w, room);
    assert (events + [e])[..|events|] == events;
    ClosedMeansClosed(kcp, events);
  }

  /** The condition on which an event wakes a task, in the crate's values: another waker takes its place, an input or
      update that is carried through finds room or bytes for it, or the socket is closed. */
  predicate Wakens(s: State, e: Event, task: nat) {
    match e
    case SendPolled(w, _, _) =>
      && !s.closed && s.sentFirst
      && (s.kcp.waitSnd >= s.kcp.sndWnd || s.kcp.waitSnd >= s.kcp.rmtWnd || s.kcp.waitingConv)
      && s.sender.Some? && s.sender.value.task == task && s.sender.value != w
    case RecvPolled(w, _) =>
      && !s.closed && (s.kcp.ready == [] || s.kcp.ready[0] == [])
      && s.receiver.Some? && s.receiver.value.task == task && s.receiver.value != w
    case Came(done, after) => done && WokenBy(s, after, task)
    case Ticked(done, after) => done && WokenBy(s, after, task)
    case Closed =>
      || (s.sender.Some? && s.sender.value.task == task)
      || (s.receiver.Some? && s.receiver.value.task == task)
  }

  predicate WokenBy(s: State, after: Kcp, task: nat) {
    || (&& s.sender.Some? && s.sender.value.task == task
        && after.waitSnd < after.sndWnd && after.waitSnd < after.rmtWnd && !after.waitingConv)
    || (s.receiver.Some? && s.receiver.value.task == task && after.ready != [] && after.ready[0] != [])
  }

  /** What an event tells tasks is to wait, if they poll, and to wake up exactly on that condition. */
  lemma WokenExactly(s: State, e: Event, task: nat)
    ensures s.log <= Next(s, e).log
    ensures Woken(task) in Next(s, e).log[|s.log|..] <==> Wakens(s, e, task)
  {
    hide PollSend, PollRecv, TryWake, Close, WokenBy;
    match e
    case SendPolled(w, accepted, after) => WokenAtSend(s, w, accepted, after, task);
    case RecvPolled(w, room) => WokenAtReceive(s, w, room, task);
    case Came(_, after) =>
      WakesInTurn(s.(kcp := after), task);
      SameWakers(s, after, task);
    case Ticked(_, after) =>
      WakesInTurn(s.(kcp := after), task);
      SameWakers(s, after, task);
    case Closed => WokenAtClose(s, task);
  }

  lemma SameWakers(s: State, after: Kcp, task: nat)
    ensures WokenBy(s.(kcp := after), after, task) <==> WokenBy(s, after, task)
  {
  }

  lemma WokenAtClose(s: State, task: nat)
    ensures s.log <= Close(s).log
    ensures Woken(task) in Close(s).log[|s.log|..] <==> Wakens(s, Closed, task)
  {
    var more := Wakes(s.sender) + Wakes(s.receiver);
    assert Woken(task) in more <==> Wakens(s, Closed, task);
    ThreeParts(s.log, Wakes(s.sender), Wakes(s.receiver));
    assert Close(s).log == s.log + more;
    hide *;
    Tail(s.log, more);
  }

  lemma Tail<A>(a: seq<A>, b: seq<A>)
    ensures (a + b)[|a|..] == b
  {
  }

  lemma WokenAtSend(s: State, w: Waker, accepted: bool, after: Kcp, task: nat)
    ensures s.log <= PollSend(s, w, accepted, after).log
    ensures Woken(task) in PollSend(s, w, accepted, after).log[|s.log|..] <==>
            Wakens(s, SendPolled(w, accepted, after), task)
  {
    var more := Replaces(s.sender, w) + [Pending(Sending, w.task)];
    Tail(s.log, more);
    ThreeParts(s.log, Replaces(s.sender, w), [Pending(Sending, w.task)]);
    assert Woken(task) in more <==> Woken(task) in Replaces(s.sender, w);
  }

  lemma WokenAtReceive(s: State, w: Waker, room: nat, task: nat)
    ensures s.log <= PollRecv(s, w, room).log
    ensures Woken(task) in PollRecv(s, w, room).log[|s.log|..] <==> Wakens(s, RecvPolled(w, room), task)
  {
    var more := Replaces(s.receiver, w) + [Pending(Receiving, w.task)];
    Tail(s.log, more);
    ThreeParts(s.log, Replaces(s.receiver, w), [Pending(Receiving, w.task)]);
    assert Woken(task) in more <==> Woken(task) in Replaces(s.receiver, w);
  }

  /** Who is woken by what the crate now shows. */
  function SenderNews(s: State): seq<Notice> {
    if s.sender.Some? && !s.kcp.Blocked() then Wakes(s.sender) else []
  }

  function ReceiverNews(s: State): seq<Notice> {
    if s.receiver.Some? && s.kcp.Readable() then Wakes(s.receiver) else []
  }

  lemma WakeLogs(s: State)
    ensures WakeSender(s).log == s.log + SenderNews(s) && ReceiverNews(WakeSender(s)) == ReceiverNews(s)
    ensures WakeReceiver(s).log == s.log + ReceiverNews(s)
  {
  }

  lemma NewsTell(s: State, task: nat)
    ensures Woken(task) in SenderNews(s) + ReceiverNews(s) <==> WokenBy(s, s.kcp, task)
  {
  }

  lemma WakesInTurn(s: State, task: nat)
    ensures s.log <= TryWake(s).log
    ensures Woken(task) in TryWake(s).log[|s.log|..] <==> WokenBy(s, s.kcp, task)
  {
    WakeLogs(s);
    WakeLogs(WakeSender(s));
    NewsTell(s, task);
    hide WakeSender, WakeReceiver, SenderNews, ReceiverNews, WokenBy;
    ThreeParts(s.log, SenderNews(s), ReceiverNews(s));
    Tail(s.log, SenderNews(s) + ReceiverNews(s));
  }

  lemma ClosedStep(s: State, e: Event)
    requires s.closed && s.sender.None? && s.receiver.None?
    ensures var s' := Next(s, e); s'.closed && s'.sender.None? && s'.receiver.None? && s'.log == s.log
  {
  }

  lemma {:induction false} StaysClosed(kcp: Kcp, events: seq<Event>, later: seq<Event>)
    requires |events| > 0 && events[|events| - 1] == Closed
    ensures var c, s := After(kcp, events), After(kcp, events + later);
            s.closed && s.sender.None? && s.receiver.None? && s.log == c.log
    decreases |later|
  {
    if |later| == 0 {
      assert events + later == events;
    } else {
      var front := later[..|later| - 1];
      StaysClosed(kcp, events, front);
      assert (events + later)[..|events + later| - 1] == events + front;
      ClosedStep(After(kcp, events + front), later[|later| - 1]);
      hide Next;
    }
  }

  /** Once closed, a socket stores nobody, every task told to wait has been woken, and nobody is told to wait again. */
  lemma ClosedIsFinal(kcp: Kcp, events: seq<Event>, later: seq<Event>)
    requires |events| > 0 && events[|events| - 1] == Closed
    ensures var c, s := After(kcp, events), After(kcp, events + later);
            && s.closed && s.sender.None? && s.receiver.None?
            && s.log == c.log
            && forall i :: 0 <= i < |s.log| ==> !StillWaits(s, i)
  {
    hide After, Next;
    StaysClosed(kcp, events, later);
    NoWakeUpIsLost(kcp, events + later);
    NobodyStored(After(kcp, events + later));
  }

  lemma NobodyStored(s: State)
    requires NoLostWakeUp(s) && s.sender.None? && s.receiver.None?
    ensures forall i :: 0 <= i < |s.log| ==> !StillWaits(s, i)
  {
    forall i | 0 <= i < |s.log| ensures !StillWaits(s, i) {
      assert Kept(s, i);
    }
  }

  // ----- Waiting beside a message -----

  /** Whoever waits to receive finds nothing to read. */
  predicate WaitsRightly(s: State) {
    s.receiver.Some? ==> !s.kcp.Readable()
  }

  /** The events that leave a receiver waiting beside a message: a poll that takes a message without bytes from before
      another one, and a packet, an update or a send that brings one but is not carried through or wakes nobody. */
  predicate Strands(s: State, e: Event) {
    match e
    case SendPolled(_, _, after) => !s.closed && !SendWaits(s) && s.receiver.Some? && after.Readable()
    case RecvPolled(_, _) => ReceiveWaits(s) && |s.kcp.ready| > 1 && s.kcp.ready[1] != []
    case Came(complete, after) => !complete && s.receiver.Some? && after.Readable()
    case Ticked(ok, after) => !ok && s.receiver.Some? && after.Readable()
    case Closed => false
  }

  lemma WaitingStep(s: State, e: Event)
    requires WaitsRightly(s)
    ensures WaitsRightly(Next(s, e)) <==> !Strands(s, e)
  {
  }

  lemma OneMore(kcp: Kcp, events: seq<Event>, i: nat)
    requires i < |events|
    ensures After(kcp, events[..i + 1]) == Next(After(kcp, events[..i]), events[i])
  {
    assert events[..i + 1][..i] == events[..i];
  }

  lemma {:induction false} RightlySoFar(kcp: Kcp, events: seq<Event>, i: nat)
    requires i <= |events|
    requires forall j :: 0 <= j < |events| ==> !Strands(After(kcp, events[..j]), events[j])
    ensures WaitsRightly(After(kcp, events[..i]))
  {
    if i > 0 {
      RightlySoFar(kcp, events, i - 1);
      OneMore(kcp, events, i - 1);
      WaitingStep(After(kcp, events[..i - 1]), events[i - 1]);
    }
  }

  /** Throughout a run whoever waits to receive finds nothing to read exactly when no event strands a receiver. */
  lemma WaitsRightlyUnlessStranded(kcp: Kcp, events: seq<Event>)
    ensures (forall i :: 0 <= i <= |events| ==> WaitsRightly(After(kcp, events[..i]))) <==>
            (forall i :: 0 <= i < |events| ==> !Strands(After(kcp, events[..i]), events[i]))
  {
    hide *;
    if forall i :: 0 <= i < |events| ==> !Strands(After(kcp, events[..i]), events[i]) {
      forall i | 0 <= i <= |events| ensures WaitsRightly(After(kcp, events[..i])) {
        RightlySoFar(kcp, events, i);
      }
    } else {
      var i :| 0 <= i < |events| && Strands(After(kcp, events[..i]), events[i]);
      OneMore(kcp, events, i);
      if WaitsRightly(After(kcp, events[..i])) {
        WaitingStep(After(kcp, events[..i]), events[i]);
        assert !WaitsRightly(After(kcp, events[..i + 1]));
      }
    }
  }

  /** The events after which a stored receiver is still the one that is stored. */
  predicate LeavesReceiver(s: State, e: Event) {
    match e
    case SendPolled(_, _, _) => true
    case RecvPolled(w, _) => s.receiver == Some(w) || s.closed || (s.kcp.ready != [] && s.kcp.ready[0] != [])
    case Came(complete, after) => !(complete && after.ready != [] && after.ready[0] != [])
    case Ticked(ok, after) => !(ok && after.ready != [] && after.ready[0] != [])
    case Closed => false
  }

  /** A waker that does not stay stored is woken at once. */
  lemma ReceiverStep(s: State, e: Event)
    requires s.receiver.Some?
    ensures Next(s, e).receiver == s.receiver <==> LeavesReceiver(s, e)
    ensures !LeavesReceiver(s, e) ==> Woken(s.receiver.value.task) in Next(s, e).log[|s.log|..]
  {
    if !LeavesReceiver(s, e) {
      var woken := Woken(s.receiver.value.task);
      match e
      case RecvPolled(w, _) => assert Next(s, e).log == s.log + ([woken] + [Pending(Receiving, w.task)]);
      case Closed => assert Next(s, e).log == s.log + (Wakes(s.sender) + [woken]);
      case Came(_, after) => WakeReceiverLogs(WakeSender(s.(kcp := after)), s.log);
      case Ticked(_, after) => WakeReceiverLogs(WakeSender(s.(kcp := after)), s.log);
    }
  }

  lemma WakeReceiverLogs(s: State, before: seq<Notice>)
    requires before <= s.log && s.receiver.Some? && s.kcp.Readable()
    ensures Woken(s.receiver.value.task) in WakeReceiver(s).log[|before|..]
  {
    var woken := Woken(s.receiver.value.task);
    assert WakeReceiver(s).log == s.log + [woken];
    assert WakeReceiver(s).log[|before|..][|s.log| - |before|] == woken;
  }

  lemma {:induction false} StoredSoFar(kcp: Kcp, events: seq<Event>, from: nat, to: nat)
    requires from <= to <= |events| && After(kcp, events[..from]).receiver.Some?
    requires forall i :: from <= i < to ==> LeavesReceiver(After(kcp, events[..i]), events[i])
    ensures After(kcp, events[..to]).receiver == After(kcp, events[..from]).receiver
  {
    if from < to {
      StoredSoFar(kcp, events, from, to - 1);
      OneMore(kcp, events, to - 1);
      ReceiverStep(After(kcp, events[..to - 1]), events[to - 1]);
    }
  }

  /** Over any stretch of a run a receiver's waker stays stored exactly when every event of it leaves it there. */
  lemma StoredUntilWoken(kcp: Kcp, events: seq<Event>, from: nat)
    requires from <= |events| && After(kcp, events[..from]).receiver.Some?
    ensures (forall i :: from <= i <= |events| ==>
               After(kcp, events[..i]).receiver == After(kcp, events[..from]).receiver) <==>
            (forall i :: from <= i < |events| ==> LeavesReceiver(After(kcp, events[..i]), events[i]))
  {
    hide *;
    var w := After(kcp, events[..from]).receiver;
    if forall i :: from <= i < |events| ==> LeavesReceiver(After(kcp, events[..i]), events[i]) {
      forall i | from <= i <= |events| ensures After(kcp, events[..i]).receiver == w {
        StoredSoFar(kcp, events, from, i);
      }
    } else {
      var i :| from <= i < |events| && !LeavesReceiver(After(kcp, events[..i]), events[i]);
      OneMore(kcp, events, i);
      if After(kcp, events[..i]).receiver == w {
        ReceiverStep(After(kcp, events[..i]), events[i]);
        assert After(kcp, events[..i + 1]).receiver != w;
      }
    }
  }

  /** Sends, and packets and updates that are not carried through. */
  predicate Quiet(e: Event) {
    e.SendPolled? || (e.Came? && !e.complete) || (e.Ticked? && !e.ok)
  }

  /** A poll that is told to wait leaves a message unread exactly when it takes a message without bytes from before
      another one.  Either way its waker stays stored, whatever is sent and whatever is tried, until the socket is
      polled to receive, closed, or next carries a packet or an update through. */
  lemma WaitsBesideAMessage(kcp: Kcp, events: seq<Event>, n: nat)
    requires n < |events| && events[n].RecvPolled? && ReceiveWaits(After(kcp, events[..n]))
    requires forall i :: n < i < |events| ==> Quiet(events[i])
    ensures var s, told := After(kcp, events[..n]), After(kcp, events[..n + 1]);
            && (told.kcp.Readable() <==> |s.kcp.ready| > 1 && s.kcp.ready[1] != [])
            && (|s.kcp.ready| > 1 ==> s.kcp.ready[0] == [])
    ensures After(kcp, events).receiver == Some(events[n].w)
  {
    OneMore(kcp, events, n);
    StoredSoFar(kcp, events, n + 1, |events|);
    assert events[..|events|] == events;
  }

  /** An input brings a message without bytes and one behind it: the next poll is told to wait and is not woken, and
      the message is there to be read. */
  lemma EmptyMessageStrands(kcp: Kcp, m: Bytes, w: Waker, room: nat)
    requires m != []
    ensures var s := After(kcp, [Came(true, kcp.(ready := [[], m])), RecvPolled(w, room)]);
            s.receiver == Some(w) && s.kcp.ready == [m] && s.kcp.Readable() && StillWaits(s, 0)
  {
    var arrived := kcp.(ready := [[], m]);
    var events := [Came(true, arrived), RecvPolled(w, room)];
    assert events[..1] == [events[0]] && events[..1][..0] == [];
    var before := State(arrived, false, None, None, false, []);
    assert After(kcp, events[..1]) == before;
    assert arrived.Received() == kcp.(ready := [m]);
    assert PollRecv(before, w, room) ==
           State(kcp.(ready := [m]), false, None, Some(w), false, [Pending(Receiving, w.task)]);
  }

  // ----- The socket -----

  datatype SendResult = SendPending | Sent(n: nat) | BrokenPipe | SendFailed

  datatype RecvResult = RecvPending | Received(bytes: Bytes) | UserBufTooSmall

  class Socket {
    var kcp: Kcp
    var sentFirst: bool
    var pendingSender: Option<Waker>
    var pendingReceiver: Option<Waker>
    var closed: bool
    ghost var log: seq<Notice>

    ghost function View(): State
      reads this
    {
      State(kcp, sentFirst, pendingSender, pendingReceiver, closed, log)
    }

    constructor (kcp: Kcp)
      ensures View() == After(kcp, [])
    {
      this.kcp, sentFirst, pendingSender, pendingReceiver, closed, log := kcp, false, None, None, false, [];
    }

    ghost method Note(notices: seq<Notice>)
      modifies this`log
      ensures log == old(log) + notices
    {
      log := log + notices;
    }

    /** `accepted` is whether the crate takes the bytes, `flushed` whether the flushes that follow succeed. */
    method PollSend(w: Waker, buf: Bytes, accepted: bool, flushed: bool, after: Kcp) returns (r: SendResult)
      requires NoLostWakeUp(View())
      modifies this
      ensures View() == Next(old(View()), SendPolled(w, accepted, after)) && NoLostWakeUp(View())
      ensures r == SendPending <==>
              && !old(closed) && old(sentFirst)
              && (old(kcp.waitSnd >= kcp.sndWnd) || old(kcp.waitSnd >= kcp.rmtWnd) || old(kcp.waitingConv))
      ensures r == BrokenPipe <==> old(closed)
      ensures r.Sent? <==> r != SendPending && r != BrokenPipe && accepted && flushed
      ensures r.Sent? ==> r.n == if !old(sentFirst) && old(kcp.waitingConv) && |buf| > old(kcp.mss)
                                 then old(kcp.mss) else |buf|
      ensures r == SendPending ==> pendingSender == Some(w) && kcp == old(kcp)
      ensures r.Sent? || r == SendFailed ==> kcp == after && sentFirst == (old(sentFirst) || accepted)
    {
      PollSendKeeps(View(), w, accepted, after);
      if closed {
        return BrokenPipe;
      }
      if sentFirst && (kcp.waitSnd >= kcp.sndWnd || kcp.waitSnd >= kcp.rmtWnd || kcp.waitingConv) {
        var previous := pendingSender;
        pendingSender := Some(w);
        Note(Replaces(previous, w) + [Pending(Sending, w.task)]);
        assert log == old(log) + Replaces(previous, w) + [Pending(Sending, w.task)];
        return SendPending;
      }
      var passed := buf;
      if !sentFirst && kcp.waitingConv && |buf| > kcp.mss {
        passed := buf[..kcp.mss];
      }
      kcp := after;
      if !accepted {
        return SendFailed;
      }
      sentFirst := true;
      return if flushed then Sent(|passed|) else SendFailed;
    }

    method PollRecv(w: Waker, room: nat) returns (r: RecvResult)
      requires NoLostWakeUp(View())
      modifies this
      ensures View() == Next(old(View()), RecvPolled(w, room)) && NoLostWakeUp(View())
      ensures r == RecvPending <==> !old(closed) && (old(kcp.ready) == [] || old(kcp.ready[0]) == [])
      ensures r == RecvPending ==>
                pendingReceiver == Some(w) && kcp.ready == if old(kcp.ready) == [] then [] else old(kcp.ready[1..])
      ensures old(closed) ==> r == Received([])
      ensures old(closed) || r == UserBufTooSmall ==> View() == old(View())
      ensures !old(closed) && r.Received? ==> old(kcp.Readable()) && [r.bytes] + kcp.ready == old(kcp.ready)
      ensures r == UserBufTooSmall <==> !old(closed) && old(kcp.Readable()) && old(|kcp.ready[0]|) > room
    {
      PollRecvKeeps(View(), w, room);
      if closed {
        return Received([]);
      }
      if |kcp.ready| == 0 || |kcp.ready[0]| == 0 {
        if |kcp.ready| > 0 {
          kcp := kcp.Received();
        }
        var previous := pendingReceiver;
        pendingReceiver := Some(w);
        Note(Replaces(previous, w) + [Pending(Receiving, w.task)]);
        assert log == old(log) + Replaces(previous, w) + [Pending(Receiving, w.task)];
        return RecvPending;
      }
      if |kcp.ready[0]| > room {
        return UserBufTooSmall;
      }
      r := Received(kcp.ready[0]);
      kcp := kcp.Received();
    }

    method TryWakePendingWaker() returns (waked: bool)
      modifies this
      ensures View() == TryWake(old(View()))
      ensures waked <==> View() != old(View())
      ensures pendingSender == if kcp.waitSnd < kcp.sndWnd && kcp.waitSnd < kcp.rmtWnd && !kcp.waitingConv
                               then None else old(pendingSender)
      ensures pendingReceiver == if kcp.ready != [] && kcp.ready[0] != [] then None else old(pendingReceiver)
    {
      waked := false;
      if pendingSender.Some? && kcp.waitSnd < kcp.sndWnd && kcp.waitSnd < kcp.rmtWnd && !kcp.waitingConv {
        Note([Woken(pendingSender.value.task)]);
        pendingSender := None;
        waked := true;
      }
      if pendingReceiver.Some? {
        var peek := kcp.PeekSize();
        if peek.Some? && peek.value > 0 {
          Note([Woken(pendingReceiver.value.task)]);
          pendingReceiver := None;
          waked := true;
        }
      }
    }

    /** `taken`: the packet carries this socket's conversation number and is well formed; `None` is an error. */
    method Input(taken: Option<bool>, ackFlushed: bool, after: Kcp) returns (waked: Option<bool>)
      requires NoLostWakeUp(View())
      modifies this
      ensures View() == Next(old(View()), Came(taken == Some(true) && ackFlushed, after)) && NoLostWakeUp(View())
      ensures waked.None? <==> taken.None? || (taken.value && !ackFlushed)
      ensures waked == Some(true) ==> taken == Some(true)
    {
      StepKeeps(View(), Came(taken == Some(true) && ackFlushed, after));
      kcp := after;
      if taken.None? {
        return None;
      }
      if !taken.value {
        return Some(false);
      }
      if !ackFlushed {
        return None;
      }
      var w := TryWakePendingWaker();
      return Some(w);
    }

    method Update(ok: bool, after: Kcp)
      requires NoLostWakeUp(View())
      modifies this
      ensures View() == Next(old(View()), Ticked(ok, after)) && NoLostWakeUp(View())
    {
      StepKeeps(View(), Ticked(ok, after));
      kcp := after;
      if ok {
        var _ := TryWakePendingWaker();
      }
    }

    method Close()
      requires NoLostWakeUp(View())
      modifies this
      ensures View() == Next(old(View()), Closed) && NoLostWakeUp(View())
    {
      CloseKeeps(View());
      closed := true;
      Note(Wakes(pendingSender) + Wakes(pendingReceiver));
      assert log == old(log) + Wakes(pendingSender) + Wakes(pendingReceiver);
      pendingSender := None;
      pendingReceiver := None;
    }
  }
}
