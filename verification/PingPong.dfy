/**
  network/kcp.rs, for streams that also carry the texts by which the ends of a connection greet each other: the
  "ping" that `register_stream_receiver` writes before its reader starts, and the "pong" that a reader answers with.

  A ping in a read of its own is skipped.  A pong is taken for the start of a header, and what follows it is lost.
 */
module PingPong {
  import opened Wrappers
  import opened PacketStructs
  import opened KcpFraming
  import opened Utf8
  import opened ChunkIndependence

  const PONG_TEXT: Bytes := [0x70, 0x6f, 0x6e, 0x67]

  /** What one read brings: part of the frames' bytes, or a ping. */
  datatype Read = Piece(bytes: Bytes) | Ping

  function Chunks(rs: seq<Read>): seq<Bytes> {
    if |rs| == 0 then []
    else [if rs[0].Ping? then PING_TEXT else rs[0].bytes] + Chunks(rs[1..])
  }

  function Pieces(rs: seq<Read>): seq<Bytes> {
    if |rs| == 0 then []
    else if rs[0].Ping? then Pieces(rs[1..])
    else [rs[0].bytes] + Pieces(rs[1..])
  }

  // ----- Pings in rs of their own -----

  /** Two readers differ at most in how often they have answered a ping. */
  ghost predicate Alike(r: Reader, s: Reader) {
    r.(pongs := 0) == s.(pongs := 0)
  }

  lemma AbsorbAlike(r: Reader, n: nat, first: seq<Frame>, rest: Bytes)
    ensures r.(pongs := n).Absorb(first, rest) == r.Absorb(first, rest).(pongs := n)
  {
    hide Parse;
  }

  lemma FeedAlike(r: Reader, s: Reader, chunk: Bytes)
    requires r.Valid() && s.Valid() && Alike(r, s)
    ensures Alike(r.Feed(chunk), s.Feed(chunk))
  {
    assert s == r.(pongs := s.pongs);
    hide Parse;
    if r.status == Open && |chunk| > 0 && chunk != PING_TEXT {
      if !r.needMore {
        AbsorbAlike(r, s.pongs, [], chunk);
      } else if r.header.action == Noop {
        AbsorbAlike(r.(held := [], resets := 0), s.pongs, [], []);
        AbsorbAlike(r.(resets := r.resets + 1), s.pongs, [], r.held + chunk);
      } else if |r.held| + |chunk| >= r.header.length {
        var k := r.header.length - |r.held|;
        AbsorbAlike(r, s.pongs, [Frame(r.header, r.held + chunk[..k])], chunk[k..]);
      }
    }
    hide Reader.Absorb;
  }

  lemma {:induction false} PingsAreSkipped(r: Reader, s: Reader, rs: seq<Read>)
    requires r.Valid() && s.Valid() && Alike(r, s)
    ensures Alike(r.FeedAll(Chunks(rs)), s.FeedAll(Pieces(rs)))
    decreases |rs|
  {
    hide Reader.Feed, Alike;
    if |rs| > 0 {
      var chunk := Chunks(rs)[0];
      assert Chunks(rs)[1..] == Chunks(rs[1..]);
      if rs[0].Ping? {
        PingIsAnswered(r, s);
        PingsAreSkipped(r.Feed(chunk), s, rs[1..]);
      } else {
        assert Pieces(rs)[1..] == Pieces(rs[1..]);
        FeedAlike(r, s, chunk);
        PingsAreSkipped(r.Feed(chunk), s.Feed(chunk), rs[1..]);
      }
    }
  }

  lemma PingIsAnswered(r: Reader, s: Reader)
    requires r.Valid() && Alike(r, s)
    ensures Alike(r.Feed(PING_TEXT), s)
  {
  }

  /** For every stream of frames and pings, each ping in a read of its own: the frames' packets arrive, and only they,
      if and only if the reads between the pings are safe. */
  lemma {:induction false} PingsDoNotMatter(fs: seq<Frame>, rs: seq<Read>)
    requires AllComplete(fs) && NonEmpty(Pieces(rs)) && Concat(Pieces(rs)) == WireAll(fs)
    ensures START.FeedAll(Chunks(rs)).delivered == ReceivedAll(fs) <==> Safe(fs, Pieces(rs))
  {
    hide Reader.FeedAll;
    PingsAreSkipped(START, START, rs);
    ChunkIndependence.ChunkIndependence(fs, Pieces(rs));
  }

  lemma PongStep(r: Reader, c: Bytes)
    requires r.Valid()
    ensures r.status != Open ==> r.Feed(c) == r
    ensures r.status == Open ==> r.Feed(c).pongs == r.pongs + if c == [0x70, 0x69, 0x6e, 0x67] then 1 else 0
    ensures r.status == Open ==> (r.Feed(c).status == Closed <==> c == [])
  {
    hide Parse;
  }

  /** A new reader that still runs has answered each ping that came in a read of its own, and nothing else. */
  lemma PingsOfAConnection(chunks: seq<Bytes>)
    requires START.FeedAll(chunks).status == Open
    ensures START.FeedAll(chunks).pongs == multiset(chunks)[[0x70, 0x69, 0x6e, 0x67]]
  {
    PingsAreAnswered(START, chunks);
  }

  lemma CountHead(chunks: seq<Bytes>, c: Bytes)
    requires |chunks| > 0
    ensures multiset(chunks)[c] == (if chunks[0] == c then 1 else 0) + multiset(chunks[1..])[c]
  {
    assert chunks == [chunks[0]] + chunks[1..];
  }

  /** The same from any state. */
  lemma {:induction false} PingsAreAnswered(r: Reader, chunks: seq<Bytes>)
    requires r.Valid() && r.FeedAll(chunks).status == Open
    ensures r.FeedAll(chunks).pongs == r.pongs + multiset(chunks)[[0x70, 0x69, 0x6e, 0x67]]
    decreases |chunks|
  {
    if |chunks| > 0 {
      var s := r.Feed(chunks[0]);
      PongStep(r, chunks[0]);
      CountHead(chunks, [0x70, 0x69, 0x6e, 0x67]);
      hide Reader.Feed;
      if s.status != Open {
        StoppedStays(s, chunks[1..]);
      }
      PingsAreAnswered(s, chunks[1..]);
    }
  }

  // ----- A pong -----

  lemma {:induction false} FeedInTwo(r: Reader, a: seq<Bytes>, b: seq<Bytes>)
    requires r.Valid()
    ensures r.FeedAll(a).Valid() && r.FeedAll(a + b) == r.FeedAll(a).FeedAll(b)
    decreases |a|
  {
    hide Reader.Feed;
    if |a| == 0 {
      assert a + b == b;
    } else {
      assert (a + b)[0] == a[0] && (a + b)[1..] == a[1..] + b;
      FeedInTwo(r.Feed(a[0]), a[1..], b);
    }
  }

  lemma HeaderStartsWithBrace(t: Bytes)
    requires |t| > 0 && t[0] != 123
    ensures Decode(t).None?
  {
    if Decode(t).Some? {
      DecodeIff(t, Decode(t).value);
      EncodeStartsWithBrace(Decode(t).value);
    }
  }

  lemma EncodeStartsWithBrace(h: Header)
    ensures |Encode(h)| > 0 && Encode(h)[0] == 123
  {
    var rest := PutText(ActionText(h.action), PutNamed(OpenDestination, h.destination,
                  PutNamed(OpenSource, h.source, PutNamed(OpenGuid, h.guid, PutLength(h.length)))));
    hide ActionText, PutNamed, PutLength;
    assert Encode(h) == Ascii(LabelText(OpenAction)) + rest;
    assert LabelText(OpenAction)[0] == '{';
  }

  /** A reader with an unfinished header that starts with a pong. */
  ghost predicate Stuck(r: Reader, done: seq<Packet>) {
    && r.status == Open && r.needMore && r.header == DEFAULT_HEADER && PONG_TEXT <= r.held
    && r.delivered == done && r.resets <= MAX_RESETS
  }

  lemma ParseAfterPong(b: Bytes)
    requires PONG_TEXT <= b
    ensures Parse(b).Panic? || (exists t :: Parse(b) == Parsed([], Some(Frame(DEFAULT_HEADER, t))) && PONG_TEXT <= t)
  {
    hide Decode, ValidUtf8, DEFAULT_HEADER;
    var k := NulAt(b);
    assert b[0] == PONG_TEXT[0] && b[1] == PONG_TEXT[1] && b[2] == PONG_TEXT[2] && b[3] == PONG_TEXT[3];
    assert k >= 4;
    HeaderStartsWithBrace(b[..k]);
    assert PONG_TEXT <= b[..k];
  }

  /** One more read does not help a stuck reader: it stays stuck or panics, until it gives up all that it holds at the
      sixth late read. */
  lemma StuckFeed(r: Reader, done: seq<Packet>, c: Bytes)
    requires r.Valid() && Stuck(r, done) && |c| > 0
    ensures var s := r.Feed(c);
            if c == PING_TEXT then Stuck(s, done) && s.resets == r.resets
            else if r.resets == 5 then s.status == Open && !s.needMore && s.delivered == done && s.resets == 0
            else (Stuck(s, done) || (s.status == Panicked && s.delivered == done)) && s.resets == r.resets + 1
  {
    assert DEFAULT_HEADER.action == Noop;
    hide Parse, DEFAULT_HEADER;
    if c != PING_TEXT {
      if r.resets + 1 > MAX_RESETS {
        AbsorbNothing(r.(held := [], resets := 0));
      } else {
        assert PONG_TEXT <= r.held + c;
        ParseAfterPong(r.held + c);
        assert r.delivered + ReceivedAll([] + []) == r.delivered;
      }
    }
  }

  lemma {:induction false} StuckRun(r: Reader, done: seq<Packet>, chunks: seq<Bytes>)
    requires r.Valid() && Stuck(r, done) && NonEmpty(chunks)
    ensures var s := r.FeedAll(chunks);
            s.delivered == done || DeliveredLength(s.delivered) < DeliveredLength(done) + |Concat(chunks)|
    decreases |chunks|
  {
    if |chunks| > 0 {
      hide Reader.Feed, Stuck;
      var s := r.Feed(chunks[0]);
      StuckFeed(r, done, chunks[0]);
      if Stuck(s, done) {
        StuckRun(s, done, chunks[1..]);
      } else if s.status == Panicked {
        StoppedStays(s, chunks[1..]);
      } else {
        RunCredit(s, chunks[1..]);
        DeliveredIsCredited(s.FeedAll(chunks[1..]));
      }
    }
  }

  lemma PongSticks(r: Reader)
    requires r.Valid() && r.status == Open && !r.needMore && r.resets <= MAX_RESETS
    ensures Stuck(r.Feed(PONG_TEXT), r.delivered)
  {
    hide DEFAULT_HEADER, Decode;
    var k := NulAt(PONG_TEXT);
    assert k == 4 && PONG_TEXT[..4] == PONG_TEXT;
    AsciiIsUtf8(PONG_TEXT);
    HeaderStartsWithBrace(PONG_TEXT);
    assert Parse(PONG_TEXT) == Parsed([], Some(Frame(DEFAULT_HEADER, PONG_TEXT)));
    assert r.delivered + ReceivedAll([] + []) == r.delivered;
  }

  // ----- Frames before and after a pong -----

  lemma {:induction false} SafeRun(r: Reader, fs: seq<Frame>, n: nat, chunks: seq<Bytes>)
    requires r.Valid() && At(r, [], fs, n) && AllComplete(fs) && r.resets <= MAX_RESETS
    requires NonEmpty(chunks) && n <= |WireAll(fs)| && Concat(chunks) == WireAll(fs)[n..]
    requires SafeFrom(fs, n, r.resets, chunks)
    ensures var s := r.FeedAll(chunks);
            s.Valid() && At(s, [], fs, |WireAll(fs)|) && s.resets <= MAX_RESETS
    decreases |chunks|
  {
    hide Parse, Encode, PacketLength, Received, DEFAULT_HEADER, Credit, BadCut, Reader.Feed;
    if |chunks| > 0 {
      StreamStep(fs, n, chunks);
      FeedAt(r, [], fs, n, chunks[0]);
      SafeRun(r.Feed(chunks[0]), fs, n + |chunks[0]|, chunks[1..]);
    }
  }

  lemma {:induction false} IdleAtEnd(r: Reader, done: seq<Packet>, fs: seq<Frame>)
    requires At(r, done, fs, |WireAll(fs)|)
    ensures r.status == Open && !r.needMore
    decreases |fs|
  {
    hide Encode, Received, Holds;
    if |fs| > 0 {
      assert WireAll(fs) == Wire(fs[0]) + WireAll(fs[1..]);
      IdleAtEnd(r, done + [Received(fs[0])], fs[1..]);
    }
  }

  /** The reader that has read frames safely is idle and has handed them on. */
  lemma SafeStreamLeavesIdle(fs: seq<Frame>, chunks: seq<Bytes>)
    requires AllComplete(fs) && NonEmpty(chunks) && Concat(chunks) == WireAll(fs) && Safe(fs, chunks)
    ensures var r := START.FeedAll(chunks);
            && r.Valid() && r.status == Open && !r.needMore && r.resets <= MAX_RESETS
            && r.delivered == ReceivedAll(fs)
  {
    assert WireAll(fs)[0..] == WireAll(fs);
    SafeRun(START, fs, 0, chunks);
    var r := START.FeedAll(chunks);
    hide Wire, Reader.FeedAll, Received, DEFAULT_HEADER, Safe, SafeFrom;
    IdleAtEnd(r, [], fs);
    AtEnd(r, [], fs);
    assert [] + ReceivedAll(fs) == ReceivedAll(fs);
  }

  lemma FramesInTwo(fs: seq<Frame>, gs: seq<Frame>)
    requires AllComplete(gs)
    ensures ReceivedAll(fs + gs) == ReceivedAll(fs) + ReceivedAll(gs)
    ensures DeliveredLength(ReceivedAll(fs + gs)) == DeliveredLength(ReceivedAll(fs)) + |WireAll(gs)|
    ensures gs != [] ==> |WireAll(gs)| > 0
  {
    hide PacketLength, Received, Encode;
    assert ReceivedAll(fs + gs) == ReceivedAll(fs) + ReceivedAll(gs);
    DeliveredLengthConcat(ReceivedAll(fs), ReceivedAll(gs));
    WrittenLength(gs);
  }

  lemma NothingToRead(chunks: seq<Bytes>)
    requires NonEmpty(chunks)
    ensures Concat(chunks) == [] ==> chunks == []
  {
    if |chunks| > 0 {
      assert |Concat(chunks)| >= |chunks[0]|;
    }
  }

  /** A pong, in a read of its own between frames that arrived safely and frames that follow it in any reads, costs
      packets exactly when frames follow it. */
  lemma {:induction false} PongLosesWhatFollows(fs: seq<Frame>, before: seq<Bytes>, gs: seq<Frame>, after: seq<Bytes>)
    requires AllComplete(fs) && NonEmpty(before) && Concat(before) == WireAll(fs) && Safe(fs, before)
    requires AllComplete(gs) && NonEmpty(after) && Concat(after) == WireAll(gs)
    ensures START.FeedAll(before + [PONG_TEXT] + after).delivered == ReceivedAll(fs + gs) <==> gs == []
  {
    SafeStreamLeavesIdle(fs, before);
    FramesInTwo(fs, gs);
    if gs == [] {
      assert fs + gs == fs && WireAll(gs) == [];
      NothingToRead(after);
    }
    var r := START.FeedAll(before);
    var s := r.Feed(PONG_TEXT);
    assert START.Valid();
    hide *;
    PongSticks(r);
    FeedInTwo(START, before + [PONG_TEXT], after);
    FeedInTwo(START, before, [PONG_TEXT]);
    FeedOne(r, PONG_TEXT);
    FeedNothing(s);
    StuckRun(s, ReceivedAll(fs), after);
    StuckHasDelivered(s, ReceivedAll(fs));
  }

  lemma {:induction false} StuckReads(r: Reader, done: seq<Packet>, late: seq<Bytes>)
    requires r.Valid() && Stuck(r, done) && NonEmpty(late) && PING_TEXT !in late && r.resets + |late| <= 5
    requires r.FeedAll(late).status == Open
    ensures var s := r.FeedAll(late); s.Valid() && Stuck(s, done) && s.resets == r.resets + |late|
    decreases |late|
  {
    if |late| > 0 {
      hide Reader.Feed, Stuck;
      var s := r.Feed(late[0]);
      StuckFeed(r, done, late[0]);
      if s.status == Panicked {
        StoppedStays(s, late[1..]);
      } else {
        StuckReads(s, done, late[1..]);
      }
    }
  }

  lemma StuckShows(r: Reader, done: seq<Packet>)
    requires Stuck(r, done)
    ensures r.status == Open && r.needMore && r.header.action == Noop && r.delivered == done
  {
  }

  lemma StillStuck(r: Reader, late: seq<Bytes>)
    requires r.Valid() && r.status == Open && !r.needMore && r.resets + |late| <= 5
    requires NonEmpty(late) && PING_TEXT !in late && r.FeedAll([PONG_TEXT] + late).status == Open
    ensures var s := r.FeedAll([PONG_TEXT] + late);
            && s.Valid() && s.status == Open && s.needMore && s.header.action == Noop
            && s.delivered == r.delivered && s.resets == r.resets + |late|
  {
    var stuck := r.Feed(PONG_TEXT);
    PongSticks(r);
    FeedsAfterPong(r, late);
    hide *;
    StuckReads(stuck, r.delivered, late);
    StuckShows(stuck.FeedAll(late), r.delivered);
  }

  lemma FeedsAfterPong(r: Reader, late: seq<Bytes>)
    requires r.Valid() && r.status == Open && !r.needMore
    ensures r.FeedAll([PONG_TEXT] + late) == r.Feed(PONG_TEXT).FeedAll(late)
    ensures r.Feed(PONG_TEXT).resets == r.resets
  {
    assert ([PONG_TEXT] + late)[0] == PONG_TEXT && ([PONG_TEXT] + late)[1..] == late;
    assert PONG_TEXT != PING_TEXT;
    hide Parse;
  }

  /** A reader that a pong has made stuck recovers: unless it panics on the way, the sixth late read (counting those
      before the pong) is the last that is lost, and what follows it arrives exactly when it is cut safely. */
  lemma PongIsGivenUp(r: Reader, late: seq<Bytes>, last: Bytes, gs: seq<Frame>, after: seq<Bytes>)
    requires r.Valid() && r.status == Open && !r.needMore && r.resets + |late| == 5
    requires NonEmpty(late) && PING_TEXT !in late && last != [] && last != PING_TEXT
    requires r.FeedAll([PONG_TEXT] + late).status == Open
    requires AllComplete(gs) && NonEmpty(after) && Concat(after) == WireAll(gs)
    ensures r.FeedAll([PONG_TEXT] + late + ([last] + after)).delivered == r.delivered + ReceivedAll(gs) <==>
            Safe(gs, after)
  {
    StillStuck(r, late);
    var s := r.FeedAll([PONG_TEXT] + late);
    hide *;
    FeedInTwo(r, [PONG_TEXT] + late, [last] + after);
    FeedInTwo(s, [last], after);
    FeedOne(s, last);
    GivenUpAndGoesOn(s, last, gs, after);
  }

  lemma FeedNothing(r: Reader)
    requires r.Valid()
    ensures r.FeedAll([]) == r
  {
  }

  lemma StuckHasDelivered(r: Reader, done: seq<Packet>)
    requires Stuck(r, done)
    ensures r.delivered == done
  {
  }

  lemma FeedOne(r: Reader, c: Bytes)
    requires r.Valid()
    ensures r.FeedAll([c]) == r.Feed(c)
  {
    assert [c][1..] == [];
    hide Reader.Feed;
  }
}
