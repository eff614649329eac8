/**
  network/kcp.rs over fogrs-kcp/src/stream.rs: packets from the writer of one router to the channel of another,
  through a KCP stream whose reads cut up what arrives.

  Every configuration of the stream turns stream mode off, so that a write arrives as a message of its own.  Then the
  cuts are not a matter of chance, and the packets themselves tell whether they arrive.
 */
module EndToEnd {
  import opened Wrappers
  import opened PacketStructs
  import opened KcpFraming
  import opened ChunkIndependence
  import PingPong
  import Stream = KcpStream

  // ----- What the reader of packets gets from the stream -----

  function TakenBy(s: Stream.Source, e: Stream.Event): seq<Bytes> {
    if e.Reads? && Stream.Read(s, e.room).0.Got? then [Stream.Read(s, e.room).0.bytes] else []
  }

  /** The results of the reads that did not wait, in order; no bytes at all mean the end of the stream. */
  function Taken(events: seq<Stream.Event>): seq<Bytes> {
    if |events| == 0 then []
    else
      var front := events[..|events| - 1];
      Taken(front) + TakenBy(Stream.After(front).source, events[|events| - 1])
  }

  /** The reader always has the same room. */
  ghost predicate ReadsWith(events: seq<Stream.Event>, room: nat) {
    forall i :: 0 <= i < |events| && events[i].Reads? ==> events[i].room == room
  }

  /** The pieces that are not empty: a write of nothing sends nothing. */
  function Solid(pieces: seq<Bytes>): seq<Bytes> {
    if |pieces| == 0 then [] else (if pieces[0] == [] then [] else [pieces[0]]) + Solid(pieces[1..])
  }

  lemma {:induction false} SolidConcat(pieces: seq<Bytes>)
    ensures NonEmpty(Solid(pieces)) && Concat(Solid(pieces)) == Concat(pieces)
  {
    if |pieces| > 0 {
      SolidConcat(pieces[1..]);
      if pieces[0] == [] {
        assert Solid(pieces) == Solid(pieces[1..]) && [] + Concat(pieces[1..]) == Concat(pieces[1..]);
      } else {
        ConcatHead(pieces[0], Solid(pieces[1..]));
      }
    }
  }

  lemma {:induction false} SolidAppend(pieces: seq<Bytes>, last: Bytes)
    ensures Solid(pieces + [last]) == Solid(pieces) + if last == [] then [] else [last]
  {
    if |pieces| == 0 {
      assert pieces + [last] == [last] && [last][1..] == [];
    } else {
      SolidAppend(pieces[1..], last);
      assert (pieces + [last])[1..] == pieces[1..] + [last];
      ThreeParts(if pieces[0] == [] then [] else [pieces[0]], Solid(pieces[1..]), if last == [] then [] else [last]);
    }
  }

  lemma {:induction false} TakenIsReturned(events: seq<Stream.Event>)
    ensures Concat(Taken(events)) == Stream.After(events).returned
  {
    if |events| > 0 {
      var front, e := events[..|events| - 1], events[|events| - 1];
      TakenIsReturned(front);
      var taken := TakenBy(Stream.After(front).source, e);
      if taken == [] {
        assert Taken(front) + taken == Taken(front);
      } else {
        ConcatAppend(Taken(front), taken[0]);
      }
    }
  }

  /** The reader stopped at a read without bytes, and the stream has nothing more to give. */
  ghost predicate AtEndOfFile(events: seq<Stream.Event>) {
    && START.FeedAll(Taken(events)).status != Open
    && Stream.After(events).source.closed && Stream.After(events).source.unread == []
  }

  lemma FeedOneMore(chunks: seq<Bytes>, last: Bytes)
    ensures START.FeedAll(chunks).Valid() && START.FeedAll(chunks + [last]) == START.FeedAll(chunks).Feed(last)
  {
    PingPong.FeedInTwo(START, chunks, [last]);
    PingPong.FeedOne(START.FeedAll(chunks), last);
  }

  ghost predicate SoFar(events: seq<Stream.Event>) {
    && START.FeedAll(Taken(events)).delivered == START.FeedAll(Solid(Taken(events))).delivered
    && (AtEndOfFile(events) || Taken(events) == Solid(Taken(events)))
  }

  lemma FeedEmpty(r: Reader)
    requires r.Valid()
    ensures r.Feed([]).delivered == r.delivered && r.Feed([]).status != Open
    ensures r.status != Open ==> forall c :: r.Feed(c) == r
  {
  }

  lemma WaitingChangesNothing(events: seq<Stream.Event>, e: Stream.Event)
    requires SoFar(events) && TakenBy(Stream.After(events).source, e) == []
    ensures SoFar(events + [e])
  {
    assert (events + [e])[..|events|] == events;
    assert Taken(events + [e]) == Taken(events);
    var s := Stream.After(events).source;
    assert s.closed && s.unread == [] ==>
        var t := Stream.After(events + [e]).source; t.closed && t.unread == [];
    hide Stream.After, Taken, Reader.FeedAll, Solid;
  }

  lemma FeedAnother(taken: seq<Bytes>, last: Bytes)
    requires START.FeedAll(taken).delivered == START.FeedAll(Solid(taken)).delivered
    requires last == [] || taken == Solid(taken)
    ensures START.FeedAll(taken + [last]).delivered == START.FeedAll(Solid(taken + [last])).delivered
    ensures if last == [] then START.FeedAll(taken + [last]).status != Open
            else taken + [last] == Solid(taken + [last])
  {
    SolidAppend(taken, last);
    FeedOneMore(taken, last);
    FeedEmpty(START.FeedAll(taken));
    assert Solid(taken) + [] == Solid(taken);
    hide *;
  }

  lemma AnotherRead(events: seq<Stream.Event>, e: Stream.Event)
    requires e.Reads? && e.room > 0 && Stream.Read(Stream.After(events).source, e.room).0.Got?
    ensures var s, s' := Stream.After(events).source, Stream.After(events + [e]).source;
            var bytes := Stream.Read(s, e.room).0.bytes;
            && Taken(events + [e]) == Taken(events) + [bytes]
            && (bytes == [] <==> s.closed && s.unread == []) && (bytes == [] ==> s' == s)
  {
    assert (events + [e])[..|events|] == events;
    Stream.EndOfFile(Stream.After(events).source, e.room);
  }

  lemma ReadingDelivers(events: seq<Stream.Event>, e: Stream.Event)
    requires SoFar(events) && e.Reads? && e.room > 0 && Stream.Read(Stream.After(events).source, e.room).0.Got?
    ensures SoFar(events + [e])
  {
    AnotherRead(events, e);
    hide Stream.After, Stream.Read, Taken, Solid, Reader.FeedAll;
    FeedAnother(Taken(events), Stream.Read(Stream.After(events).source, e.room).0.bytes);
  }

  /** The end of the stream does not change what was delivered. */
  lemma {:induction false} EndDeliversNothing(events: seq<Stream.Event>, room: nat)
    requires room > 0 && ReadsWith(events, room)
    ensures SoFar(events)
  {
    if |events| > 0 {
      var front, e := events[..|events| - 1], events[|events| - 1];
      assert events == front + [e];
      EndDeliversNothing(front, room);
      hide SoFar, Taken;
      if TakenBy(Stream.After(front).source, e) == [] {
        WaitingChangesNothing(front, e);
      } else {
        ReadingDelivers(front, e);
      }
    }
  }

  /** Whatever arrives on the stream as the bytes of some packets, in whatever messages, once everything is read the
      packets have been handed on exactly when the reads cut them safely. */
  lemma PacketsCrossTheStream(ps: seq<Packet>, drawn: seq<GdpName>, events: seq<Stream.Event>, room: nat)
    requires Sendable(ps, drawn) && room > 0 && ReadsWith(events, room)
    requires Concat(Stream.After(events).arrived) == WireAll(FramesOf(ps, drawn))
    requires Stream.Left(Stream.After(events).source) == []
    ensures START.FeedAll(Taken(events)).delivered == Arrivals(ps, drawn) <==>
            Safe(FramesOf(ps, drawn), Solid(Taken(events)))
  {
    hide Wire, WireAll, FramesOf, Safe;
    EndDeliversNothing(events, room);
    TakenIsReturned(events);
    SolidConcat(Taken(events));
    Stream.BytesAreConserved(events);
    var returned := Stream.After(events).returned;
    assert returned + [] == returned;
    PacketsArrive(ps, drawn, Solid(Taken(events)));
  }

  // ----- Reads cut messages where the writer would -----

  function CutsAll(messages: seq<Bytes>, room: nat): seq<Bytes>
    requires room > 0
  {
    if |messages| == 0 then [] else Cuts(messages[0], room) + CutsAll(messages[1..], room)
  }

  lemma {:induction false} CutsOfBoth(a: seq<Bytes>, b: seq<Bytes>, room: nat)
    requires room > 0
    ensures CutsAll(a + b, room) == CutsAll(a, room) + CutsAll(b, room)
  {
    hide Cuts;
    if |a| == 0 {
      assert a + b == b;
    } else {
      CutsOfBoth(a[1..], b, room);
      assert (a + b)[1..] == a[1..] + b;
      ThreeParts(Cuts(a[0], room), CutsAll(a[1..], room), CutsAll(b, room));
    }
  }

  lemma CutsOfOne(m: Bytes, room: nat)
    requires room > 0
    ensures CutsAll([m], room) == Cuts(m, room)
  {
    assert [m][1..] == [];
  }

  /** What reads with this room will bring of what a stream holds. */
  function ToRead(s: Stream.Source, room: nat): seq<Bytes>
    requires room > 0
  {
    Cuts(s.unread, room) + CutsAll(s.ready, room)
  }

  lemma NextCut(b: Bytes, room: nat)
    requires room > 0 && |b| > 0
    ensures var n := Stream.Least(|b|, room); Cuts(b, room) == [b[..n]] + Cuts(b[n..], room)
  {
    if |b| <= room {
      assert b[..|b|] == b && b[|b|..] == [];
    }
  }

  lemma ReadTakesACut(s: Stream.Source, room: nat)
    requires room > 0
    ensures var (r, s') := Stream.Read(s, room);
            ToRead(s, room) == (if r.Got? && r.bytes != [] then [r.bytes] else []) + ToRead(s', room)
  {
    var (r, s') := Stream.Read(s, room);
    assert Cuts([], room) == [];
    hide Cuts;
    if s.unread != [] {
      NextCut(s.unread, room);
      ThreeParts([r.bytes], Cuts(s'.unread, room), CutsAll(s.ready, room));
    } else if !s.closed && |s.ready| > 0 && s.ready[0] != [] {
      NextCut(s.ready[0], room);
      ThreeParts([r.bytes], Cuts(s'.unread, room), CutsAll(s'.ready, room));
      assert [] + CutsAll(s.ready, room) == CutsAll(s.ready, room);
    } else {
      assert [] + CutsAll(s.ready, room) == CutsAll(s.ready, room);
      assert [] + CutsAll(s'.ready, room) == CutsAll(s'.ready, room);
    }
  }

  lemma ReadStep(events: seq<Stream.Event>, e: Stream.Event, room: nat)
    requires room > 0 && (e.Reads? ==> e.room == room)
    requires Solid(Taken(events)) + ToRead(Stream.After(events).source, room) ==
             CutsAll(Stream.After(events).arrived, room)
    ensures Solid(Taken(events + [e])) + ToRead(Stream.After(events + [e]).source, room) ==
            CutsAll(Stream.After(events + [e]).arrived, room)
  {
    assert (events + [e])[..|events|] == events;
    var s, taken := Stream.After(events).source, Solid(Taken(events));
    var more := TakenBy(s, e);
    assert Taken(events + [e]) == Taken(events) + more;
    match e
    case Arrives(m) =>
      CutsOfBoth(s.ready, [m], room);
      CutsOfBoth(Stream.After(events).arrived, [m], room);
      CutsOfOne(m, room);
      assert Taken(events) + more == Taken(events);
      ThreeParts(Cuts(s.unread, room), CutsAll(s.ready, room), Cuts(m, room));
      ThreeParts(taken, ToRead(s, room), Cuts(m, room));
      hide *;
    case Reads(_) =>
      ReadTakesACut(s, room);
      if more == [] {
        assert Taken(events) + more == Taken(events);
        assert [] + ToRead(Stream.Read(s, room).1, room) == ToRead(Stream.Read(s, room).1, room);
      } else {
        assert more == [more[0]];
        SolidAppend(Taken(events), more[0]);
        ThreeParts(taken, if more[0] == [] then [] else more, ToRead(Stream.Read(s, room).1, room));
        assert taken + [] == taken;
      }
      hide *;
    case Closes =>
      assert Taken(events) + more == Taken(events);
  }

  /** In every run with reads of one size, what was read, then what is left to read, are the messages that arrived,
      each cut from its front into pieces of that size. */
  lemma {:induction false} ReadsAreCuts(events: seq<Stream.Event>, room: nat)
    requires room > 0 && ReadsWith(events, room)
    ensures Solid(Taken(events)) + ToRead(Stream.After(events).source, room) ==
            CutsAll(Stream.After(events).arrived, room)
  {
    if |events| > 0 {
      var front, e := events[..|events| - 1], events[|events| - 1];
      assert events == front + [e];
      ReadsAreCuts(front, room);
      hide Stream.After, Taken, Solid, CutsAll, ToRead;
      ReadStep(front, e, room);
    }
  }

  lemma {:induction false} NothingToCut(messages: seq<Bytes>, room: nat)
    requires room > 0 && Concat(messages) == []
    ensures CutsAll(messages, room) == []
  {
    if |messages| > 0 {
      NothingToCut(messages[1..], room);
    }
  }

  lemma {:induction false} SolidCuts(messages: seq<Bytes>, room: nat)
    requires room > 0
    ensures CutsAll(Solid(messages), room) == CutsAll(messages, room)
  {
    if |messages| > 0 {
      SolidCuts(messages[1..], room);
      if messages[0] == [] {
        assert [] + Solid(messages[1..]) == Solid(messages[1..]);
        assert [] + CutsAll(messages[1..], room) == CutsAll(messages[1..], room);
      } else {
        assert ([messages[0]] + Solid(messages[1..]))[1..] == Solid(messages[1..]);
      }
    }
  }

  // ----- The writes of packets, as they are read -----

  lemma {:induction false} DecimalIsShort(n: nat, digits: nat, limit: nat)
    requires digits > 0 && n < limit && limit == Power10(digits)
    ensures |Decimal(n)| <= digits
  {
    if n >= 10 {
      DecimalIsShort(n / 10, digits - 1, Power10(digits - 1));
    }
  }

  function Power10(k: nat): nat {
    if k == 0 then 1 else 10 * Power10(k - 1)
  }

  lemma FiveMoreDigits(k: nat)
    ensures Power10(k + 5) == 100000 * Power10(k)
  {
    assert Power10(k + 5) == 10 * Power10(k + 4) == 100 * Power10(k + 3) == 1000 * Power10(k + 2);
  }

  lemma ActionIsShort(a: GdpAction)
    ensures |ActionText(a)| <= 20
  {
  }

  lemma LabelIsShort(l: Label)
    ensures |LabelText(l)| <= 20
  {
  }

  lemma ElementIsShort(n: Byte, after: Byte, rest: Bytes)
    ensures |PutElement(n, after, rest)| <= |rest| + 4
  {
    DecimalIsShort(n, 3, Power10(3));
  }

  lemma NameIsShort(n: GdpName, rest: Bytes)
    ensures |PutName(n, rest)| <= |rest| + 17
  {
    var r3 := PutElement(n.b3, CLOSE_BRACKET, rest);
    var r2 := PutElement(n.b2, COMMA, r3);
    var r1 := PutElement(n.b1, COMMA, r2);
    ElementIsShort(n.b3, CLOSE_BRACKET, rest);
    ElementIsShort(n.b2, COMMA, r3);
    ElementIsShort(n.b1, COMMA, r2);
    ElementIsShort(n.b0, COMMA, r1);
    hide PutElement;
  }

  lemma NamedIsShort(l: Label, n: GdpName, rest: Bytes)
    ensures |PutNamed(l, n, rest)| <= |rest| + 37
  {
    LabelIsShort(l);
    NameIsShort(n, rest);
    hide PutName, LabelText;
  }

  lemma LengthIsShort(n: Usize)
    ensures |PutLength(n)| <= 60
  {
    FiveMoreDigits(0);
    FiveMoreDigits(5);
    FiveMoreDigits(10);
    FiveMoreDigits(15);
    DecimalIsShort(n, 20, Power10(20));
    LabelIsShort(OpenLength);
    hide Decimal, Power10;
  }

  /** A header, with its zero byte, always fits into one read. */
  lemma HeaderFits(h: Header)
    ensures |Encode(h)| < UDP_BUFFER_SIZE
  {
    var end := PutLength(h.length);
    LengthIsShort(h.length);
    hide PutLength;
    NamedIsShort(OpenGuid, h.guid, end);
    NamedIsShort(OpenSource, h.source, PutNamed(OpenGuid, h.guid, end));
    NamedIsShort(OpenDestination, h.destination, PutNamed(OpenSource, h.source, PutNamed(OpenGuid, h.guid, end)));
    LabelIsShort(OpenAction);
    ActionIsShort(h.action);
    hide PutNamed, ActionText, LabelText;
  }

  /** The reads that a packet's writes become. */
  function Reads(p: Packet, drawn: GdpName): seq<Bytes>
    requires |Body(p)| < USIZE_LIMIT && (p.payload.Some? || p.guid.Some?)
  {
    [Encode(GetHeader(p, drawn).value) + [0]] + BodyReads(p)
  }

  function BodyReads(p: Packet): seq<Bytes> {
    Cuts(OrEmpty(p.payload), UDP_BUFFER_SIZE) + Cuts(OrEmpty(p.nameRecord), UDP_BUFFER_SIZE)
  }

  lemma {:induction false} CutsOfCuts(b: Bytes, room: nat)
    requires room > 0
    ensures CutsAll(Cuts(b, room), room) == Cuts(b, room)
    decreases |b|
  {
    if |b| > room {
      CutsOfCuts(b[room..], room);
      assert Cuts(b, room)[1..] == Cuts(b[room..], room);
    } else if |b| > 0 {
      CutsOfOne(b, room);
    }
  }

  lemma WritesAreRead(p: Packet, drawn: GdpName)
    requires |Body(p)| < USIZE_LIMIT && (p.payload.Some? || p.guid.Some?)
    ensures Writes(p, drawn).Some? && CutsAll(Writes(p, drawn).value, UDP_BUFFER_SIZE) == Reads(p, drawn)
  {
    hide Encode;
    var text := Encode(GetHeader(p, drawn).value) + [0];
    var payload, record := OrEmpty(p.payload), if p.nameRecord.Some? then [p.nameRecord.value] else [];
    HeaderFits(GetHeader(p, drawn).value);
    CutsOfOne(text, UDP_BUFFER_SIZE);
    CutsOfCuts(payload, UDP_BUFFER_SIZE);
    CutsOfOne(OrEmpty(p.nameRecord), UDP_BUFFER_SIZE);
    CutsOfBoth([text], Cuts(payload, UDP_BUFFER_SIZE), UDP_BUFFER_SIZE);
    CutsOfBoth([text] + Cuts(payload, UDP_BUFFER_SIZE), record, UDP_BUFFER_SIZE);
    ThreeParts([text], Cuts(payload, UDP_BUFFER_SIZE), CutsAll(record, UDP_BUFFER_SIZE));
    assert CutsAll([text], UDP_BUFFER_SIZE) == [text];
    hide Cuts;
  }

  /** The writes of packets, one packet after the other. */
  function AllWrites(ps: seq<Packet>, drawn: seq<GdpName>): seq<Bytes>
    requires Sendable(ps, drawn)
  {
    if |ps| == 0 then [] else Writes(ps[0], drawn[0]).value + AllWrites(ps[1..], drawn[1..])
  }

  function AllReads(ps: seq<Packet>, drawn: seq<GdpName>): seq<Bytes>
    requires Sendable(ps, drawn)
  {
    if |ps| == 0 then [] else Reads(ps[0], drawn[0]) + AllReads(ps[1..], drawn[1..])
  }

  lemma {:induction false} AllWritesAreRead(ps: seq<Packet>, drawn: seq<GdpName>)
    requires Sendable(ps, drawn)
    ensures CutsAll(AllWrites(ps, drawn), UDP_BUFFER_SIZE) == AllReads(ps, drawn)
  {
    hide Writes, Reads, Cuts, Body, Encode;
    if |ps| > 0 {
      WritesAreRead(ps[0], drawn[0]);
      AllWritesAreRead(ps[1..], drawn[1..]);
      CutsOfBoth(Writes(ps[0], drawn[0]).value, AllWrites(ps[1..], drawn[1..]), UDP_BUFFER_SIZE);
    }
  }

  lemma {:induction false} ConcatBoth(a: seq<Bytes>, b: seq<Bytes>)
    ensures Concat(a + b) == Concat(a) + Concat(b)
  {
    if |a| == 0 {
      assert a + b == b && [] + Concat(b) == Concat(b);
    } else {
      ConcatBoth(a[1..], b);
      assert (a + b)[1..] == a[1..] + b;
      ThreeParts(a[0], Concat(a[1..]), Concat(b));
    }
  }

  lemma FramesSplit(ps: seq<Packet>, drawn: seq<GdpName>)
    requires Sendable(ps, drawn) && |ps| > 0
    ensures FramesOf(ps, drawn)[0] == FrameOf(ps[0], drawn[0]).value
    ensures FramesOf(ps, drawn)[1..] == FramesOf(ps[1..], drawn[1..])
  {
  }

  lemma {:induction false} AllWritesAreWire(ps: seq<Packet>, drawn: seq<GdpName>)
    requires Sendable(ps, drawn)
    ensures Concat(AllWrites(ps, drawn)) == WireAll(FramesOf(ps, drawn))
  {
    hide Encode, Cuts;
    if |ps| > 0 {
      WritesAreWritten(ps[0], drawn[0]);
      AllWritesAreWire(ps[1..], drawn[1..]);
      FramesSplit(ps, drawn);
      assert Written(ps[0], drawn[0]).value == Wire(FrameOf(ps[0], drawn[0]).value);
      hide Writes, Written, Wire, FrameOf, Body, Concat;
      ConcatBoth(Writes(ps[0], drawn[0]).value, AllWrites(ps[1..], drawn[1..]));
    }
  }

  // ----- Which packets arrive -----

  lemma SafeStep(fs: seq<Frame>, n: nat, resets: nat, c: Bytes, rest: seq<Bytes>)
    ensures SafeFrom(fs, n, resets, [c] + rest) <==>
              var late := if PlaceOf(fs, n) == InHeader then resets + 1 else resets;
              && c != PING_TEXT && !BadCut(PlaceOf(fs, n + |c|)) && late <= MAX_RESETS
              && SafeFrom(fs, n + |c|, late, rest)
  {
    hide PlaceOf;
    Stream.FirstAndRest(c, rest);
  }

  lemma Split<A>(s: seq<A>)
    requires |s| > 0
    ensures s == [s[0]] + s[1..]
  {
  }

  /** Cutting past the first frame is cutting the rest. */
  lemma {:induction false} SafeAfterFrame(fs: seq<Frame>, n: nat, resets: nat, chunks: seq<Bytes>)
    requires |fs| > 0 && n >= |Wire(fs[0])|
    ensures SafeFrom(fs, n, resets, chunks) <==> SafeFrom(fs[1..], n - |Wire(fs[0])|, resets, chunks)
    decreases |chunks|
  {
    hide Wire, Encode;
    if |chunks| > 0 {
      hide PlaceOf, SafeFrom;
      var c, rest, length := chunks[0], chunks[1..], |Wire(fs[0])|;
      Split(chunks);
      PlaceAfterFrame(fs, n);
      PlaceAfterFrame(fs, n + |c|);
      SafeStep(fs, n, resets, c, rest);
      SafeStep(fs[1..], n - length, resets, c, rest);
      SafeAfterFrame(fs, n + |c|, if PlaceOf(fs, n) == InHeader then resets + 1 else resets, rest);
    }
  }

  lemma PlaceAfterFrame(fs: seq<Frame>, n: nat)
    requires |fs| > 0 && n >= |Wire(fs[0])|
    ensures PlaceOf(fs, n) == PlaceOf(fs[1..], n - |Wire(fs[0])|)
  {
    assert |Wire(fs[0])| > 0;
    hide Encode;
  }

  lemma PlaceInBody(fs: seq<Frame>, n: nat)
    requires |fs| > 0 && |Encode(fs[0].header)| < n <= |Wire(fs[0])|
    ensures PlaceOf(fs, n) == if n < |Wire(fs[0])| then InBody(fs[0].header.action) else Between
  {
    hide Encode;
  }

  /** The body of the first frame in pieces, then the other frames. */
  lemma {:induction false} SafeBody(fs: seq<Frame>, n: nat, pieces: seq<Bytes>, rest: seq<Bytes>)
    requires |fs| > 0 && NonEmpty(pieces)
    requires |Encode(fs[0].header)| < n && n + |Concat(pieces)| == |Wire(fs[0])|
    requires fs[0].header.action == Noop ==> pieces == []
    ensures SafeFrom(fs, n, 0, pieces + rest) <==> PING_TEXT !in pieces && SafeFrom(fs[1..], 0, 0, rest)
    decreases |pieces|
  {
    hide Wire, Encode, PlaceOf, SafeFrom;
    if |pieces| == 0 {
      assert pieces + rest == rest;
      SafeAfterFrame(fs, n, 0, rest);
    } else {
      var c, more := pieces[0], pieces[1..];
      Split(pieces);
      ThreeParts([c], more, rest);
      PlaceInBody(fs, n);
      PlaceInBody(fs, n + |c|);
      SafeBody(fs, n + |c|, more, rest);
      SafeStep(fs, n, 0, c, more + rest);
    }
  }

  lemma HeaderIsNoPing(fs: seq<Frame>)
    requires |fs| > 0
    ensures var text := Encode(fs[0].header) + [0];
            text != PING_TEXT && |Wire(fs[0])| == |text| + |fs[0].body| && PlaceOf(fs, 0) == Between
  {
    HeaderIsLong(fs[0].header);
    hide Encode;
  }

  /** The cut after a first frame's header and zero byte. */
  lemma SafeHeader(fs: seq<Frame>, rest: seq<Bytes>)
    requires |fs| > 0
    ensures var text := Encode(fs[0].header) + [0];
            SafeFrom(fs, 0, 0, [text] + rest) <==>
            (fs[0].header.action == Noop ==> fs[0].body == []) && SafeFrom(fs, |text|, 0, rest)
  {
    hide Encode, Wire, PlaceOf, SafeFrom;
    var text := Encode(fs[0].header) + [0];
    HeaderIsNoPing(fs);
    PlaceInBody(fs, |text|);
    SafeStep(fs, 0, 0, text, rest);
  }

  /** A first frame whose header and zero byte are one read. */
  lemma SafePacket(fs: seq<Frame>, pieces: seq<Bytes>, rest: seq<Bytes>)
    requires |fs| > 0 && NonEmpty(pieces) && Concat(pieces) == fs[0].body
    ensures var text := Encode(fs[0].header) + [0];
            SafeFrom(fs, 0, 0, [text] + (pieces + rest)) <==>
            && (fs[0].header.action == Noop ==> fs[0].body == [])
            && PING_TEXT !in pieces && SafeFrom(fs[1..], 0, 0, rest)
  {
    hide Encode, Wire, PlaceOf, SafeFrom;
    SafeHeader(fs, pieces + rest);
    HeaderIsNoPing(fs);
    if fs[0].header.action == Noop && pieces != [] {
      assert fs[0].body == pieces[0] + Concat(pieces[1..]);
    } else {
      SafeBody(fs, |Encode(fs[0].header)| + 1, pieces, rest);
    }
  }

  /** A text whose last piece is the text "ping". */
  predicate EndsInPing(b: Bytes) {
    |b| % 65535 == 4 && b[|b| - 4..] == [0x70, 0x69, 0x6e, 0x67]
  }

  lemma {:induction false} PingIsACut(b: Bytes)
    ensures PING_TEXT in Cuts(b, UDP_BUFFER_SIZE) <==> EndsInPing(b)
    decreases |b|
  {
    if |b| > UDP_BUFFER_SIZE {
      var rest := b[UDP_BUFFER_SIZE..];
      PingIsACut(rest);
      assert |b| % UDP_BUFFER_SIZE == |rest| % UDP_BUFFER_SIZE;
      assert |rest| >= 4 ==> rest[|rest| - 4..] == b[|b| - 4..];
      assert |b[..UDP_BUFFER_SIZE]| != |PING_TEXT|;
    } else if |b| == UDP_BUFFER_SIZE {
      assert |b| != |PING_TEXT|;
    } else if |b| == 4 {
      assert b[0..] == b;
    }
  }

  /** The packets that get through: no Noop with anything to carry, and nothing that ends in a read equal to "ping". */
  predicate GetsThrough(p: Packet) {
    && (p.action == Noop ==> Body(p) == [])
    && !EndsInPing(OrEmpty(p.payload)) && !EndsInPing(OrEmpty(p.nameRecord))
  }

  lemma BodyReadsAre(p: Packet)
    ensures NonEmpty(BodyReads(p)) && Concat(BodyReads(p)) == Body(p)
    ensures PING_TEXT in BodyReads(p) <==> EndsInPing(OrEmpty(p.payload)) || EndsInPing(OrEmpty(p.nameRecord))
  {
    var payload, record := OrEmpty(p.payload), OrEmpty(p.nameRecord);
    CutsConcat(payload, UDP_BUFFER_SIZE);
    CutsConcat(record, UDP_BUFFER_SIZE);
    ConcatBoth(Cuts(payload, UDP_BUFFER_SIZE), Cuts(record, UDP_BUFFER_SIZE));
    PingIsACut(payload);
    PingIsACut(record);
    hide Cuts, Concat, EndsInPing;
  }

  lemma {:induction false} SafeReads(ps: seq<Packet>, drawn: seq<GdpName>)
    requires Sendable(ps, drawn)
    ensures SafeFrom(FramesOf(ps, drawn), 0, 0, AllReads(ps, drawn)) <==>
            forall i :: 0 <= i < |ps| ==> GetsThrough(ps[i])
  {
    hide SafeFrom, GetsThrough, BodyReads, Encode, FrameOf;
    if |ps| > 0 {
      SafeReads(ps[1..], drawn[1..]);
      FirstReads(ps, drawn);
      assert (forall i :: 0 <= i < |ps| ==> GetsThrough(ps[i])) <==>
          GetsThrough(ps[0]) && forall i :: 0 <= i < |ps| - 1 ==> GetsThrough(ps[1..][i]);
    } else {
      NoReads(FramesOf(ps, drawn));
    }
  }

  lemma NoReads(fs: seq<Frame>)
    ensures SafeFrom(fs, 0, 0, [])
  {
  }

  lemma FirstReads(ps: seq<Packet>, drawn: seq<GdpName>)
    requires Sendable(ps, drawn) && |ps| > 0
    ensures SafeFrom(FramesOf(ps, drawn), 0, 0, AllReads(ps, drawn)) <==>
            GetsThrough(ps[0]) && SafeFrom(FramesOf(ps[1..], drawn[1..]), 0, 0, AllReads(ps[1..], drawn[1..]))
  {
    hide Encode, SafeFrom, EndsInPing, Cuts, Concat;
    var fs := FramesOf(ps, drawn);
    FramesSplit(ps, drawn);
    BodyReadsAre(ps[0]);
    SafePacket(fs, BodyReads(ps[0]), AllReads(ps[1..], drawn[1..]));
    ThreeParts([Encode(fs[0].header) + [0]], BodyReads(ps[0]), AllReads(ps[1..], drawn[1..]));
    hide BodyReads, Body, FramesOf;
  }

  /** Every write arrives as a message of its own, and the reader has read all of them: then the packets have been
      handed on, each once and in order, exactly when each of them is one that gets through. */
  lemma PacketsGetThrough(ps: seq<Packet>, drawn: seq<GdpName>, events: seq<Stream.Event>)
    requires Sendable(ps, drawn) && ReadsWith(events, UDP_BUFFER_SIZE)
    requires Stream.After(events).arrived == Solid(AllWrites(ps, drawn))
    requires Stream.Left(Stream.After(events).source) == []
    ensures START.FeedAll(Taken(events)).delivered == Arrivals(ps, drawn) <==>
            forall i :: 0 <= i < |ps| ==> GetsThrough(ps[i])
  {
    hide Encode, Writes;
    var writes, source := AllWrites(ps, drawn), Stream.After(events).source;
    SolidConcat(writes);
    AllWritesAreWire(ps, drawn);
    PacketsCrossTheStream(ps, drawn, events, UDP_BUFFER_SIZE);
    ReadsAreCuts(events, UDP_BUFFER_SIZE);
    NothingToCut(source.ready, UDP_BUFFER_SIZE);
    assert ToRead(source, UDP_BUFFER_SIZE) == [];
    SolidCuts(writes, UDP_BUFFER_SIZE);
    AllWritesAreRead(ps, drawn);
    assert Solid(Taken(events)) + [] == Solid(Taken(events));
    SafeReads(ps, drawn);
    assert Safe(FramesOf(ps, drawn), AllReads(ps, drawn)) ==
           SafeFrom(FramesOf(ps, drawn), 0, 0, AllReads(ps, drawn));
    hide *;
  }
}
