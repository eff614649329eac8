/**
  fogrs-kcp/src/stream.rs: reading a stream of bytes out of the messages of a KCP socket, through the caller's
  buffer when the next message fits in it and through a buffer of the stream's own when it does not.

  No byte is lost, repeated or moved, however long the reads and however the messages arrive between them.
 */
module KcpStream {
  import opened Wrappers
  import opened PacketStructs
  import opened KcpSocket

  /** What a reader sees of a stream: bytes taken from the socket but not yet returned, messages still in the socket,
      and whether the socket is closed. */
  datatype Source = Source(unread: Bytes, ready: seq<Bytes>, closed: bool)

  datatype Outcome = Wait | Got(bytes: Bytes)

  function Least(a: nat, b: nat): nat {
    if a <= b then a else b
  }

  /** One `poll_recv` with room for so many bytes. */
  function Read(s: Source, room: nat): (Outcome, Source) {
    if |s.unread| > 0 then
      var n := Least(|s.unread|, room);
      (Got(s.unread[..n]), s.(unread := s.unread[n..]))
    else if s.closed then (Got([]), s)
    else if |s.ready| == 0 then (Wait, s)
    else if |s.ready[0]| == 0 then (Wait, s.(ready := s.ready[1..]))
    else
      var n := Least(|s.ready[0]|, room);
      (Got(s.ready[0][..n]), s.(unread := s.ready[0][n..], ready := s.ready[1..]))
  }

  /** Something that happens to a stream. */
  datatype Event = Arrives(message: Bytes) | Reads(room: nat) | Closes

  /** A stream, the bytes that reads returned so far, and the messages that arrived so far. */
  datatype Past = Past(source: Source, returned: Bytes, arrived: seq<Bytes>)

  function Next(p: Past, e: Event): Past {
    match e
    case Arrives(m) => p.(source := p.source.(ready := p.source.ready + [m]), arrived := p.arrived + [m])
    case Reads(room) =>
      var (r, s) := Read(p.source, room);
      p.(source := s, returned := p.returned + if r.Wait? then [] else r.bytes)
    case Closes => p.(source := p.source.(closed := true))
  }

  function After(events: seq<Event>): Past {
    if |events| == 0 then Past(Source([], [], false), [], [])
    else Next(After(events[..|events| - 1]), events[|events| - 1])
  }

  // ----- Conservation -----

  function Left(s: Source): Bytes {
    s.unread + Concat(s.ready)
  }

  /** One read takes its bytes off the front of what is left. */
  lemma ReadTakesTheFront(s: Source, room: nat)
    ensures var (r, s') := Read(s, room);
            Left(s) == (if r.Wait? then [] else r.bytes) + Left(s') && (r.Got? ==> |r.bytes| <= room)
  {
    if |s.unread| > 0 {
      var n := Least(|s.unread|, room);
      assert s.unread == s.unread[..n] + s.unread[n..];
    } else if !s.closed && |s.ready| > 0 {
      var m := s.ready[0];
      var n := Least(|m|, room);
      assert m == m[..n] + m[n..];
      assert s.ready == [m] + s.ready[1..];
      ConcatHead(m, s.ready[1..]);
    }
  }

  ghost predicate Conserved(p: Past) {
    p.returned + Left(p.source) == Concat(p.arrived)
  }

  lemma ArrivalConserves(p: Past, m: Bytes)
    requires Conserved(p)
    ensures Conserved(Next(p, Arrives(m)))
  {
    ConcatAppend(p.source.ready, m);
    ConcatAppend(p.arrived, m);
    ThreeParts(p.source.unread, Concat(p.source.ready), m);
    ThreeParts(p.returned, Left(p.source), m);
    hide Concat;
  }

  lemma ReadConserves(p: Past, room: nat)
    requires Conserved(p)
    ensures Conserved(Next(p, Reads(room)))
  {
    ReadTakesTheFront(p.source, room);
    var (r, s) := Read(p.source, room);
    ThreeParts(p.returned, if r.Wait? then [] else r.bytes, Left(s));
    hide Concat, Read, Left;
  }

  /** In every run the bytes returned, then those buffered, then those queued are the bytes that arrived. */
  lemma {:induction false} BytesAreConserved(events: seq<Event>)
    ensures var p := After(events); p.returned + Left(p.source) == Concat(p.arrived)
  {
    if |events| > 0 {
      var before := events[..|events| - 1];
      BytesAreConserved(before);
      match events[|events| - 1]
      case Arrives(m) => ArrivalConserves(After(before), m);
      case Reads(room) => ReadConserves(After(before), room);
      case Closes =>
    }
  }

  /** A read with room returns no bytes only at the end: the stream is closed and nothing is buffered. */
  lemma EndOfFile(s: Source, room: nat)
    requires room > 0
    ensures Read(s, room).0 == Got([]) <==> s.closed && s.unread == []
  {
  }

  /** A read waits exactly when an open stream has nothing buffered and no message, or one without bytes, is next. */
  lemma WaitsForBytes(s: Source, room: nat)
    ensures Read(s, room).0.Wait? <==>
            !s.closed && s.unread == [] && (s.ready == [] || s.ready[0] == [])
    ensures Read(s, room).0.Wait? ==>
              Read(s, room).1 == s.(ready := if s.ready == [] then [] else s.ready[1..])
  {
  }

  lemma ClosedStep(p: Past, e: Event)
    requires p.source.closed
    ensures var p' := Next(p, e);
            && p'.source.closed && p.source.ready <= p'.source.ready
            && p'.returned + p'.source.unread == p.returned + p.source.unread
  {
    if e.Reads? && |p.source.unread| > 0 {
      var n := Least(|p.source.unread|, e.room);
      assert p.source.unread == p.source.unread[..n] + p.source.unread[n..];
      ThreeParts(p.returned, p.source.unread[..n], p.source.unread[n..]);
    } else if e.Reads? {
      assert p.returned + [] == p.returned;
    }
  }

  lemma {:induction false} ClosedSteps(events: seq<Event>, later: seq<Event>)
    requires After(events).source.closed
    ensures var c, p := After(events), After(events + later);
            && p.source.closed && c.source.ready <= p.source.ready
            && p.returned + p.source.unread == c.returned + c.source.unread
    decreases |later|
  {
    if |later| == 0 {
      assert events + later == events;
    } else {
      var before := later[..|later| - 1];
      ClosedSteps(events, before);
      assert (events + later)[..|events + later| - 1] == events + before;
      ClosedStep(After(events + before), later[|later| - 1]);
      hide Next;
    }
  }

  /** Once a stream is closed, reading returns what is buffered and then nothing: however it is read, the messages in
      the socket at that moment and those that arrive later stay there, and the rest of what arrived was returned or
      is buffered. */
  lemma ClosingCutsOff(events: seq<Event>, later: seq<Event>)
    requires After(events).source.closed
    ensures var c, p := After(events), After(events + later);
            && c.source.ready <= p.source.ready
            && p.returned + p.source.unread == c.returned + c.source.unread
            && p.returned + p.source.unread + Concat(p.source.ready) == Concat(p.arrived)
  {
    ClosedSteps(events, later);
    BytesAreConserved(events + later);
    var p := After(events + later);
    hide After;
    ThreeParts(p.returned, p.source.unread, Concat(p.source.ready));
  }

  // ----- The stream -----

  datatype RecvOutcome = RecvWait | Ok(n: nat) | Err

  class Stream {
    const socket: Socket
    var recvBuffer: array<Byte>
    var recvBufferPos: nat
    var recvBufferCap: nat

    ghost predicate Valid()
      reads this, recvBuffer, socket
    {
      recvBufferPos <= recvBufferCap <= recvBuffer.Length && NoLostWakeUp(socket.View())
    }

    ghost function View(): Source
      requires recvBufferPos <= recvBufferCap <= recvBuffer.Length
      reads this, recvBuffer, socket
    {
      Source(recvBuffer[recvBufferPos..recvBufferCap], socket.kcp.ready, socket.closed)
    }

    constructor (socket: Socket)
      requires NoLostWakeUp(socket.View())
      ensures Valid() && this.socket == socket && fresh(recvBuffer)
      ensures View() == Source([], socket.kcp.ready, socket.closed)
    {
      this.socket := socket;
      recvBuffer := new Byte[0];
      recvBufferPos, recvBufferCap := 0, 0;
    }

    /** Copies the front of the stream's own buffer to the caller's. */
    method TakeBuffered(buf: array<Byte>) returns (n: nat)
      requires Valid() && buf != recvBuffer && recvBufferPos < recvBufferCap
      modifies this`recvBufferPos, buf
      ensures Valid()
      ensures n == Least(|old(View()).unread|, buf.Length)
      ensures buf[..n] == old(View()).unread[..n] && buf[n..] == old(buf[n..])
      ensures View() == old(View()).(unread := old(View()).unread[n..])
    {
      var remaining := recvBufferCap - recvBufferPos;
      n := if remaining <= buf.Length then remaining else buf.Length;
      forall i | 0 <= i < n {
        buf[i] := recvBuffer[recvBufferPos + i];
      }
      ghost var unread := View().unread;
      assert forall i :: 0 <= i < n ==> buf[i] == unread[i];
      assert buf[..n] == unread[..n];
      recvBufferPos := recvBufferPos + n;
      assert View().unread == unread[n..];
    }

    /** `resize`: a longer buffer, the new part filled with zeros. */
    method Grow(size: nat)
      requires Valid() && recvBufferPos == recvBufferCap
      modifies this`recvBuffer
      ensures Valid() && recvBuffer.Length >= size && View() == old(View())
      ensures recvBuffer == old(recvBuffer) || fresh(recvBuffer)
    {
      if recvBuffer.Length < size {
        var previous := recvBuffer;
        recvBuffer := new Byte[size](
          i requires 0 <= i < size reads previous => if i < previous.Length then previous[i] else 0);
      }
    }

    /** Receives the next message into the caller's buffer, which has room for it. */
    method ReadDirectly(w: Waker, buf: array<Byte>) returns (r: RecvOutcome)
      requires Valid() && buf != recvBuffer && recvBufferPos == recvBufferCap
      requires 0 < |socket.kcp.ready| && 0 < |socket.kcp.ready[0]| <= buf.Length
      modifies buf, socket
      ensures Valid()
      ensures r.Ok? && r.n <= buf.Length && buf[r.n..] == old(buf[r.n..])
      ensures Read(old(View()), buf.Length) == (Got(buf[..r.n]), View())
    {
      var received := socket.PollRecv(w, buf.Length);
      match received
      case RecvPending => r := RecvWait;
      case UserBufTooSmall => r := Err;
      case Received(bytes) =>
        FirstAndRest(bytes, socket.kcp.ready);
        forall i | 0 <= i < |bytes| {
          buf[i] := bytes[i];
        }
        r := Ok(|bytes|);
        assert buf[..r.n] == bytes == bytes[..Least(|bytes|, buf.Length)];
        assert View().unread == [] == bytes[|bytes|..];
    }

    /** Receives the next message into the stream's own buffer, which is made long enough for it. */
    method FillBuffer(w: Waker, room: nat) returns (r: Option<RecvOutcome>)
      requires Valid() && recvBufferPos == recvBufferCap
      requires |socket.kcp.ready| > 0 ==> |socket.kcp.ready[0]| == 0 || |socket.kcp.ready[0]| > room
      modifies this, recvBuffer, socket
      ensures Valid() && (recvBuffer == old(recvBuffer) || fresh(recvBuffer))
      ensures r.Some? ==> (r.value == Ok(0) || r.value == RecvWait) &&
                          Read(old(View()), room) == (if r.value == Ok(0) then Got([]) else Wait, View())
      ensures r.None? ==> recvBufferPos < recvBufferCap && Read(old(View()), room) == Read(View(), room)
    {
      ghost var before := View();
      var peek := socket.kcp.PeekSize();
      var size := if peek.Some? then peek.value else 0;
      Grow(size);
      var received := socket.PollRecv(w, recvBuffer.Length);
      match received
      case RecvPending => return Some(RecvWait);
      case UserBufTooSmall => return Some(Err);
      case Received(bytes) =>
        if |bytes| == 0 {
          return Some(Ok(0));
        }
        FirstAndRest(bytes, socket.kcp.ready);
        forall i | 0 <= i < |bytes| {
          recvBuffer[i] := bytes[i];
        }
        recvBufferPos, recvBufferCap := 0, |bytes|;
        assert View().unread == bytes;
        return None;
    }

    method PollRecv(w: Waker, buf: array<Byte>) returns (r: RecvOutcome)
      requires Valid() && buf != recvBuffer
      modifies this, recvBuffer, buf, socket
      ensures Valid() && (recvBuffer == old(recvBuffer) || fresh(recvBuffer))
      ensures r != Err
      ensures r.Ok? ==> r.n <= buf.Length && buf[r.n..] == old(buf[r.n..])
      ensures Read(old(View()), buf.Length) == (if r.Ok? then Got(buf[..r.n]) else Wait, View())
    {
      while true
        invariant Valid() && (recvBuffer == old(recvBuffer) || fresh(recvBuffer)) && buf != recvBuffer
        invariant buf[..] == old(buf[..]) && Read(View(), buf.Length) == Read(old(View()), buf.Length)
        decreases recvBufferPos >= recvBufferCap
      {
        if recvBufferPos < recvBufferCap {
          var n := TakeBuffered(buf);
          return Ok(n);
        }
        var peek := socket.kcp.PeekSize();
        if peek.Some? && 0 < peek.value <= buf.Length {
          r := ReadDirectly(w, buf);
          return;
        }
        var done := FillBuffer(w, buf.Length);
        if done.Some? {
          return done.value;
        }
      }
    }
  }

  lemma FirstAndRest<A>(head: A, tail: seq<A>)
    ensures ([head] + tail)[0] == head && ([head] + tail)[1..] == tail
  {
  }
}
