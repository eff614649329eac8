/**
  network/kcp.rs, over whole connections: which ways of cutting a stream of frames into reads give the receiver back
  the packets that were written.
 */
module ChunkIndependence {
  import opened Wrappers
  import opened PacketStructs
  import opened KcpFraming
  import opened Utf8

  // The proof follows two measures.  As long as no bad cut has happened the reader is exactly where its position in
  // the stream says (`At`).  A bad cut loses bytes for good (`Credit`), so that the frames handed on can never again
  // add up to the bytes that were written.

  /** Where a position of the stream lies. */
  datatype Place = Between | InHeader | BeforeNul | InBody(action: GdpAction)

  function PlaceOf(fs: seq<Frame>, n: nat): Place
    decreases |fs|
  {
    if n == 0 || |fs| == 0 then Between
    else if n >= |Wire(fs[0])| then PlaceOf(fs[1..], n - |Wire(fs[0])|)
    else if n < |Encode(fs[0].header)| then InHeader
    else if n == |Encode(fs[0].header)| then BeforeNul
    else InBody(fs[0].header.action)
  }

  /** A cut that the reader cannot survive: a header without its zero byte makes it panic, and the header
      of an unfinished `Noop` packet is mistaken for the mark of an unfinished header. */
  predicate BadCut(p: Place) {
    p == BeforeNul || p == InBody(Noop)
  }

  /** The cuts that give the packets back, from position `n` with `resets` headers completed late so far:
      no read is the text "ping", no cut is bad, and at most five reads complete a header. */
  predicate SafeFrom(fs: seq<Frame>, n: nat, resets: nat, chunks: seq<Bytes>)
    decreases |chunks|
  {
    |chunks| == 0 ||
    var next := n + |chunks[0]|;
    var late := if PlaceOf(fs, n) == InHeader then resets + 1 else resets;
    && chunks[0] != PING_TEXT
    && !BadCut(PlaceOf(fs, next))
    && late <= MAX_RESETS
    && SafeFrom(fs, next, late, chunks[1..])
  }

  predicate Safe(fs: seq<Frame>, chunks: seq<Bytes>) {
    SafeFrom(fs, 0, 0, chunks)
  }

  ghost predicate AllComplete(fs: seq<Frame>) {
    forall i :: 0 <= i < |fs| ==> Complete(fs[i])
  }

  ghost predicate NonEmpty(chunks: seq<Bytes>) {
    forall i :: 0 <= i < |chunks| ==> |chunks[i]| > 0
  }

  // ----- Parsing a prefix of the stream -----

  lemma {:induction false} AsciiIsUtf8(b: Bytes)
    requires forall i :: 0 <= i < |b| ==> b[i] < 128
    ensures ValidUtf8(b)
    decreases |b|
  {
    if |b| > 0 {
      AsciiIsUtf8(b[1..]);
    }
  }

  lemma {:induction false} NulAtOf(text: Bytes, rest: Bytes)
    requires forall i :: 0 <= i < |text| ==> text[i] != 0
    requires |rest| > 0 ==> rest[0] == 0
    ensures NulAt(text + rest) == |text|
    decreases |text|
  {
    if |text| == 0 {
      assert text + rest == rest;
    } else {
      assert (text + rest)[1..] == text[1..] + rest;
      NulAtOf(text[1..], rest);
    }
  }

  /** A buffer that ends inside a header. */
  lemma {:induction false} ParseHeaderPrefix(h: Header, k: nat)
    requires 0 < k < |Encode(h)|
    ensures Parse(Encode(h)[..k]) == Parsed([], Some(Frame(DEFAULT_HEADER, Encode(h)[..k])))
  {
    hide Encode, Decode, DEFAULT_HEADER;
    HeaderText(h);
    var t := Encode(h)[..k];
    NulAtOf(t, []);
    assert t + [] == t && t[..|t|] == t;
    AsciiIsUtf8(t);
    NoPrefixDecodes(h, k);
  }

  /** A buffer that ends just before a header's zero byte. */
  lemma {:induction false} ParseHeaderAlone(h: Header)
    ensures Parse(Encode(h)) == Panic
  {
    hide Encode, Decode;
    HeaderText(h);
    var t := Encode(h);
    NulAtOf(t, []);
    assert t + [] == t && t[..|t|] == t;
    AsciiIsUtf8(t);
    DecodeIff(t, h);
  }

  /** A buffer that starts with a header and its zero byte. */
  lemma {:induction false} ParseAfterHeader(h: Header, b: Bytes)
    ensures Parse(Encode(h) + [0] + b) ==
            if h.length > |b| then Parsed([], Some(Frame(h, b)))
            else Prepend([Frame(h, b[..h.length])], Parse(b[h.length..]))
  {
    hide Encode, Decode, ValidUtf8, Parse, Prepend;
    HeaderText(h);
    var t := Encode(h);
    AsciiIsUtf8(t);
    DecodeIff(t, h);
    ParseAfterText(t, h, b);
  }

  lemma {:induction false} ParseAfterText(t: Bytes, h: Header, b: Bytes)
    requires ValidUtf8(t) && Decode(t) == Some(h) && (forall i :: 0 <= i < |t| ==> t[i] != 0)
    ensures Parse(t + [0] + b) ==
            if h.length > |b| then Parsed([], Some(Frame(h, b)))
            else Prepend([Frame(h, b[..h.length])], Parse(b[h.length..]))
  {
    hide Encode, Decode, ValidUtf8, Prepend;
    var all := t + [0] + b;
    assert all == t + ([0] + b);
    NulAtOf(t, [0] + b);
    assert all[..|t|] == t;
    assert all[|t| + 1..] == b;
  }

  lemma {:induction false} ParseFrame(f: Frame, b: Bytes)
    requires Complete(f)
    ensures Parse(Wire(f) + b) == Prepend([f], Parse(b))
  {
    hide Encode, Parse;
    ParseAfterHeader(f.header, f.body + b);
    assert Wire(f) + b == Encode(f.header) + [0] + (f.body + b);
    assert (f.body + b)[..f.header.length] == f.body && (f.body + b)[f.header.length..] == b;
  }

  // ----- The reader's place in the stream -----

  /** The reader, having handed on `done`, has read the first `n` bytes of `fs` and lost none. */
  ghost predicate At(r: Reader, done: seq<Packet>, fs: seq<Frame>, n: nat)
    decreases |fs|
  {
    if |fs| > 0 && n >= |Wire(fs[0])| then At(r, done + [Received(fs[0])], fs[1..], n - |Wire(fs[0])|)
    else
      && r.status == Open && r.delivered == done
      && if n == 0 then !r.needMore && r.held == []
         else |fs| > 0 && r.needMore && Holds(r, fs[0], n)
  }

  ghost predicate Holds(r: Reader, f: Frame, n: nat)
    requires n < |Wire(f)|
  {
    var text := Encode(f.header);
    if n < |text| then r.header == DEFAULT_HEADER && r.held == text[..n]
    else n > |text| && r.header == f.header && r.header.action != Noop && r.held == f.body[..n - |text| - 1]
  }

  lemma {:induction false} AbsorbFrame(r: Reader, f: Frame, b: Bytes)
    requires Complete(f)
    ensures r.Absorb([], Wire(f) + b) == r.Absorb([f], b)
  {
    hide Parse, Wire;
    ParseFrame(f, b);
    if Parse(b).Parsed? {
      assert [] + ([f] + Parse(b).frames) == [f] + Parse(b).frames;
    }
  }

  lemma AbsorbDelivered(r: Reader, f: Frame, b: Bytes)
    ensures Parse(b).Parsed? ==>
              r.Absorb([f], b) == r.(delivered := r.delivered + [Received(f)]).Absorb([], b)
  {
    hide Parse, Received;
    if Parse(b).Parsed? {
      var frames := Parse(b).frames;
      assert ReceivedAll([f] + frames) == [Received(f)] + ReceivedAll([] + frames);
    }
  }

  lemma {:induction false} WireSplit(fs: seq<Frame>, b: Bytes)
    requires |fs| > 0 && b <= WireAll(fs)
    ensures |b| < |Wire(fs[0])| ==> b == Wire(fs[0])[..|b|]
    ensures |b| >= |Wire(fs[0])| ==>
              var rest := b[|Wire(fs[0])|..];
              b == Wire(fs[0]) + rest && rest <= WireAll(fs[1..])
  {
    hide Wire;
    var w := Wire(fs[0]);
    assert b == WireAll(fs)[..|b|];
    assert WireAll(fs) == w + WireAll(fs[1..]);
    if |b| < |w| {
      assert b == w[..|b|];
    } else {
      assert b == w + b[|w|..];
      assert b[|w|..] == WireAll(fs[1..])[..|b| - |w|];
    }
  }

  // ----- Bytes accounted for -----

  function PacketLength(p: Packet): nat {
    var n := |OrEmpty(p.payload)|;
    if n < USIZE_LIMIT && p.guid.Some?
    then |Encode(Header(p.action, p.gdpname, p.source, p.guid.value, n))| + 1 + n
    else 0
  }

  function DeliveredLength(ps: seq<Packet>): nat {
    if |ps| == 0 then 0 else DeliveredLength(ps[..|ps| - 1]) + PacketLength(ps[|ps| - 1])
  }

  function HeldLength(f: Frame): nat {
    if f.header.action == Noop then |f.body| else |Encode(f.header)| + 1 + |f.body|
  }

  /** The bytes of the stream that the packets handed on and the unfinished one account for. */
  function Credit(r: Reader): nat {
    DeliveredLength(r.delivered) +
    if r.status == Open && r.needMore then HeldLength(Frame(r.header, r.held)) else 0
  }

  lemma PacketLengthIsWire(f: Frame)
    requires Complete(f)
    ensures PacketLength(Received(f)) == |Wire(f)|
  {
    hide Encode;
    assert f.header == Header(f.header.action, f.header.destination, f.header.source, f.header.guid, |f.body|);
  }

  lemma {:induction false} DeliveredLengthConcat(ps: seq<Packet>, qs: seq<Packet>)
    ensures DeliveredLength(ps + qs) == DeliveredLength(ps) + DeliveredLength(qs)
    decreases |qs|
  {
    hide PacketLength;
    if |qs| == 0 {
      assert ps + qs == ps;
    } else {
      assert (ps + qs)[..|ps + qs| - 1] == ps + qs[..|qs| - 1];
      DeliveredLengthConcat(ps, qs[..|qs| - 1]);
    }
  }

  lemma DeliveredLengthOne(p: Packet)
    ensures DeliveredLength([p]) == PacketLength(p)
  {
    hide PacketLength;
    assert [p][..0] == [];
  }

  function ParsedLength(p: Parsed): nat {
    if p.Panic? then 0
    else DeliveredLength(ReceivedAll(p.frames)) + if p.rest.Some? then HeldLength(p.rest.value) else 0
  }

  lemma {:induction false} ParsedLengthPrepend(f: Frame, p: Parsed)
    requires Complete(f)
    ensures p.Parsed? ==> ParsedLength(Prepend([f], p)) == |Wire(f)| + ParsedLength(p)
  {
    hide PacketLength, HeldLength, Wire, Received;
    if p.Parsed? {
      assert ReceivedAll([f] + p.frames) == [Received(f)] + ReceivedAll(p.frames);
      DeliveredLengthConcat([Received(f)], ReceivedAll(p.frames));
      DeliveredLengthOne(Received(f));
      PacketLengthIsWire(f);
    }
  }

  /** Parsing never accounts for more bytes than it was given. */
  lemma {:induction false} ParsedLengthBound(b: Bytes)
    ensures ParsedLength(Parse(b)) <= |b|
    decreases |b|
  {
    hide Decode, Encode, ValidUtf8, PacketLength, ParsedLength, HeldLength, Wire, NulAt;
    var k := NulAt(b);
    if |b| == 0 || !ValidUtf8(b[..k]) || Decode(b[..k]).None? || k == |b| {
      EmptyParsedLength(Parse(b));
      HeldLengthBound(Frame(DEFAULT_HEADER, b[..k]));
    } else {
      var h := Decode(b[..k]).value;
      DecodeIff(b[..k], h);
      var remaining := b[k + 1..];
      if h.length > |remaining| {
        EmptyParsedLength(Parse(b));
        HeldLengthBound(Frame(h, remaining));
      } else {
        var f := Frame(h, remaining[..h.length]);
        WireLength(f);
        ParsedLengthBound(remaining[h.length..]);
        ParsedLengthPrepend(f, Parse(remaining[h.length..]));
        PanicLength(Parse(b));
      }
    }
  }

  lemma HeldLengthBound(f: Frame)
    ensures HeldLength(f) <= |Encode(f.header)| + 1 + |f.body|
    ensures f.header == DEFAULT_HEADER ==> HeldLength(f) == |f.body|
  {
    hide Encode;
  }

  lemma WireLength(f: Frame)
    ensures |Wire(f)| == |Encode(f.header)| + 1 + |f.body|
  {
  }

  lemma PanicLength(p: Parsed)
    ensures p.Panic? ==> ParsedLength(p) == 0
  {
  }

  lemma EmptyParsedLength(p: Parsed)
    requires p.Parsed? ==> p.frames == []
    ensures ParsedLength(p) == if p.Parsed? && p.rest.Some? then HeldLength(p.rest.value) else 0
  {
    if p.Parsed? {
      assert ReceivedAll(p.frames) == [];
    }
  }

  lemma {:induction false} AbsorbCredit(r: Reader, first: seq<Frame>, b: Bytes)
    ensures Credit(r.Absorb(first, b)) <= DeliveredLength(r.delivered) + DeliveredLength(ReceivedAll(first)) + |b|
  {
    hide Parse, HeldLength, PacketLength, Received;
    ParsedLengthBound(b);
    if Parse(b).Parsed? {
      var frames := Parse(b).frames;
      assert ReceivedAll(first + frames) == ReceivedAll(first) + ReceivedAll(frames);
      DeliveredLengthConcat(ReceivedAll(first), ReceivedAll(frames));
      DeliveredLengthConcat(r.delivered, ReceivedAll(first + frames));
    }
  }

  /** No read adds more to the account than its own bytes; a swallowed "ping" and a sixth late header add less. */
  lemma FeedCredit(r: Reader, c: Bytes)
    requires r.Valid()
    ensures Credit(r.Feed(c)) <= Credit(r) + |c|
    ensures r.status == Open && |c| > 0 &&
            (c == PING_TEXT || (r.needMore && r.header.action == Noop && r.resets >= MAX_RESETS)) ==>
              Credit(r.Feed(c)) < Credit(r) + |c|
  {
    hide Parse, Encode, PacketLength, Received;
    if r.status == Open && |c| > 0 && c != PING_TEXT {
      assert ReceivedAll([]) == [];
      if !r.needMore {
        AbsorbCredit(r, [], c);
      } else if r.header.action == Noop {
        AbsorbCredit(r.(held := [], resets := 0), [], []);
        AbsorbCredit(r.(resets := r.resets + 1), [], r.held + c);
      } else if |r.held| + |c| >= r.header.length {
        var k := r.header.length - |r.held|;
        var f := Frame(r.header, r.held + c[..k]);
        AbsorbCredit(r, [f], c[k..]);
        assert ReceivedAll([f]) == [Received(f)];
        DeliveredLengthOne(Received(f));
        PacketLengthIsWire(f);
      }
    }
  }

  lemma {:induction false} RunCredit(r: Reader, chunks: seq<Bytes>)
    requires r.Valid()
    ensures Credit(r.FeedAll(chunks)) <= Credit(r) + |Concat(chunks)|
    decreases |chunks|
  {
    hide Credit;
    if |chunks| > 0 {
      FeedCredit(r, chunks[0]);
      RunCredit(r.Feed(chunks[0]), chunks[1..]);
    }
  }

  lemma {:induction false} WrittenLength(fs: seq<Frame>)
    requires AllComplete(fs)
    ensures DeliveredLength(ReceivedAll(fs)) == |WireAll(fs)|
  {
    hide PacketLength, Wire, Received;
    if |fs| > 0 {
      WrittenLength(fs[1..]);
      assert ReceivedAll(fs) == [Received(fs[0])] + ReceivedAll(fs[1..]);
      DeliveredLengthConcat([Received(fs[0])], ReceivedAll(fs[1..]));
      DeliveredLengthOne(Received(fs[0]));
      PacketLengthIsWire(fs[0]);
    }
  }

  // ----- One read, from a known place -----

  lemma {:induction false} AtIsOpen(r: Reader, done: seq<Packet>, fs: seq<Frame>, n: nat)
    requires At(r, done, fs, n)
    ensures r.status == Open
    decreases |fs|
  {
    hide Wire, Holds, Received;
    if |fs| > 0 && n >= |Wire(fs[0])| {
      AtIsOpen(r, done + [Received(fs[0])], fs[1..], n - |Wire(fs[0])|);
    }
  }

  lemma {:induction false} CreditAt(r: Reader, done: seq<Packet>, fs: seq<Frame>, n: nat)
    requires At(r, done, fs, n) && AllComplete(fs)
    ensures Credit(r) == DeliveredLength(done) + n
    decreases |fs|
  {
    hide Encode, PacketLength, Received;
    if |fs| > 0 && n >= |Wire(fs[0])| {
      CreditAt(r, done + [Received(fs[0])], fs[1..], n - |Wire(fs[0])|);
      DeliveredLengthConcat(done, [Received(fs[0])]);
      DeliveredLengthOne(Received(fs[0]));
      PacketLengthIsWire(fs[0]);
    }
  }

  /** Completing the first frame of `fs` and going on with `rest` of the following ones. */
  lemma {:induction false} AbsorbFrameAt(r: Reader, done: seq<Packet>, fs: seq<Frame>, rest: Bytes)
    requires r.status == Open && r.delivered == done && |fs| > 0 && AllComplete(fs) && rest <= WireAll(fs[1..])
    ensures var n := |Wire(fs[0])| + |rest|;
            if BadCut(PlaceOf(fs, n)) then Credit(r.Absorb([fs[0]], rest)) < DeliveredLength(done) + n
            else At(r.Absorb([fs[0]], rest), done, fs, n)
    decreases |fs|, 0
  {
    hide Parse, Encode, PacketLength, Received, Holds;
    var f := fs[0];
    var now := done + [Received(f)];
    var next := r.(delivered := now);
    AbsorbAt(next, now, fs[1..], rest);
    AbsorbDelivered(r, f, rest);
    DeliveredLengthConcat(done, [Received(f)]);
    DeliveredLengthOne(Received(f));
    PacketLengthIsWire(f);
    if Parse(rest).Panic? && At(next.Absorb([], rest), now, fs[1..], |rest|) {
      AtIsOpen(next.Absorb([], rest), now, fs[1..], |rest|);
    }
  }

  /** Parsing a prefix of the stream puts the reader where that prefix ends, or loses bytes. */
  lemma {:induction false} AbsorbAt(r: Reader, done: seq<Packet>, fs: seq<Frame>, b: Bytes)
    requires r.status == Open && r.delivered == done && AllComplete(fs) && b <= WireAll(fs)
    ensures if BadCut(PlaceOf(fs, |b|)) then Credit(r.Absorb([], b)) < DeliveredLength(done) + |b|
            else At(r.Absorb([], b), done, fs, |b|)
    decreases |fs|, 1
  {
    hide Parse, Encode, PacketLength, Received, DEFAULT_HEADER;
    if |b| == 0 {
      AbsorbNothing(r);
    } else {
      WireSplit(fs, b);
      if |b| >= |Wire(fs[0])| {
        var rest := b[|Wire(fs[0])|..];
        AbsorbFrame(r, fs[0], rest);
        AbsorbFrameAt(r, done, fs, rest);
      } else {
        AbsorbPartial(r, fs[0], |b|);
      }
    }
  }

  lemma AbsorbNothing(r: Reader)
    ensures r.Absorb([], []) == r.(needMore := false, held := [])
  {
    assert r.delivered + ReceivedAll([] + []) == r.delivered;
  }

  lemma {:induction false} AbsorbPartial(r: Reader, f: Frame, n: nat)
    requires r.status == Open && Complete(f) && 0 < n < |Wire(f)|
    ensures var s, text := r.Absorb([], Wire(f)[..n]), Encode(f.header);
            if n == |text| || (n > |text| && f.header.action == Noop)
            then Credit(s) < DeliveredLength(r.delivered) + n
            else s.status == Open && s.delivered == r.delivered && s.needMore && Holds(s, f, n)
  {
    hide Parse, Encode, PacketLength, Received, DEFAULT_HEADER;
    var text := Encode(f.header);
    assert r.delivered + ReceivedAll([] + []) == r.delivered;
    if n < |text| {
      assert Wire(f)[..n] == text[..n];
      ParseHeaderPrefix(f.header, n);
      DefaultIsNoop();
    } else if n == |text| {
      assert Wire(f)[..n] == text;
      ParseHeaderAlone(f.header);
    } else {
      var b := f.body[..n - |text| - 1];
      assert Wire(f)[..n] == text + [0] + b;
      ParseAfterHeader(f.header, b);
    }
  }

  lemma DefaultIsNoop()
    ensures DEFAULT_HEADER.action == Noop
  {
  }

  /** The next read is `c`, it is not "ping", and no header is completed late for the sixth time. */
  ghost predicate Harmless(r: Reader, fs: seq<Frame>, n: nat, c: Bytes) {
    && 0 < |c| && n + |c| <= |WireAll(fs)| && c == WireAll(fs)[n..n + |c|] && c != PING_TEXT
    && (PlaceOf(fs, n) == InHeader ==> r.resets < MAX_RESETS)
  }

  /** What one read `c` does to a reader at `n`: it moves along, or loses bytes at a bad cut. */
  ghost predicate Moves(r: Reader, s: Reader, done: seq<Packet>, fs: seq<Frame>, n: nat, c: Bytes) {
    && s.resets == (if PlaceOf(fs, n) == InHeader then r.resets + 1 else r.resets)
    && if BadCut(PlaceOf(fs, n + |c|)) then Credit(s) < DeliveredLength(done) + n + |c|
       else At(s, done, fs, n + |c|)
  }

  lemma {:induction false} FeedAt(r: Reader, done: seq<Packet>, fs: seq<Frame>, n: nat, c: Bytes)
    requires r.Valid() && At(r, done, fs, n) && AllComplete(fs) && Harmless(r, fs, n, c)
    ensures Moves(r, r.Feed(c), done, fs, n, c)
    decreases |fs|
  {
    hide Parse, Encode, PacketLength, Received, DEFAULT_HEADER, Credit, BadCut;
    if n == 0 {
      AbsorbAt(r, done, fs, c);
      AbsorbKeepsResets(r, [], c);
    } else if n < |Wire(fs[0])| {
      FeedWithin(r, done, fs, n, c);
    } else {
      FeedLater(r, done, fs, n, c);
    }
  }

  lemma AbsorbKeepsResets(r: Reader, first: seq<Frame>, b: Bytes)
    ensures r.Absorb(first, b).resets == r.resets
  {
  }

  lemma {:induction false} FeedLater(r: Reader, done: seq<Packet>, fs: seq<Frame>, n: nat, c: Bytes)
    requires r.Valid() && At(r, done, fs, n) && AllComplete(fs) && Harmless(r, fs, n, c)
    requires |fs| > 0 && n >= |Wire(fs[0])|
    ensures Moves(r, r.Feed(c), done, fs, n, c)
    decreases |fs|, 0
  {
    hide Parse, Encode, PacketLength, Received, DEFAULT_HEADER, Credit, BadCut, Reader.Feed, Holds;
    var f := fs[0];
    var m := n - |Wire(f)|;
    assert WireAll(fs) == Wire(f) + WireAll(fs[1..]);
    assert c == WireAll(fs[1..])[m..m + |c|];
    FeedAt(r, done + [Received(f)], fs[1..], m, c);
    DeliveredLengthConcat(done, [Received(f)]);
    DeliveredLengthOne(Received(f));
    PacketLengthIsWire(f);
  }

  lemma {:induction false} FeedWithin(r: Reader, done: seq<Packet>, fs: seq<Frame>, n: nat, c: Bytes)
    requires r.Valid() && At(r, done, fs, n) && AllComplete(fs) && Harmless(r, fs, n, c)
    requires |fs| > 0 && 0 < n < |Wire(fs[0])|
    ensures Moves(r, r.Feed(c), done, fs, n, c)
  {
    hide Parse, Encode, PacketLength, Received, Credit, BadCut, Reader.Absorb;
    var f, text := fs[0], Encode(fs[0].header);
    var all := WireAll(fs);
    assert all == Wire(f) + WireAll(fs[1..]);
    if n < |text| {
      assert r.held + c == all[..n + |c|];
      AbsorbAt(r.(resets := r.resets + 1), done, fs, r.held + c);
      AbsorbKeepsResets(r.(resets := r.resets + 1), [], r.held + c);
    } else {
      FeedBody(r, done, fs, n, c);
    }
  }

  lemma {:induction false} FeedBody(r: Reader, done: seq<Packet>, fs: seq<Frame>, n: nat, c: Bytes)
    requires r.Valid() && At(r, done, fs, n) && AllComplete(fs) && Harmless(r, fs, n, c)
    requires |fs| > 0 && |Encode(fs[0].header)| < n < |Wire(fs[0])|
    ensures Moves(r, r.Feed(c), done, fs, n, c)
  {
    hide Parse, Encode, PacketLength, Received, Credit, BadCut, Reader.Absorb;
    var f, text := fs[0], Encode(fs[0].header);
    var all := WireAll(fs);
    var j := n - |text| - 1;
    BodyBytes(fs, n, c);
    if j + |c| < |f.body| {
      assert r.held + c == f.body[..j + |c|];
      BodyIsNoBadCut(fs, n + |c|);
    } else {
      var k := |f.body| - j;
      assert r.held + c[..k] == f.body;
      AbsorbFrameAt(r, done, fs, c[k..]);
      AbsorbKeepsResets(r, [f], c[k..]);
    }
  }

  lemma BodyIsNoBadCut(fs: seq<Frame>, n: nat)
    requires |fs| > 0 && |Encode(fs[0].header)| < n < |Wire(fs[0])| && fs[0].header.action != Noop
    ensures !BadCut(PlaceOf(fs, n))
  {
  }

  /** The bytes of the stream from a place within the first frame's body. */
  lemma {:induction false} BodyBytes(fs: seq<Frame>, n: nat, c: Bytes)
    requires |fs| > 0 && |Encode(fs[0].header)| < n < |Wire(fs[0])|
    requires n + |c| <= |WireAll(fs)| && c == WireAll(fs)[n..n + |c|]
    ensures var f, j := fs[0], n - |Encode(fs[0].header)| - 1;
            if j + |c| < |f.body| then c == f.body[j..j + |c|]
            else var k := |f.body| - j; c[..k] == f.body[j..] && c[k..] <= WireAll(fs[1..])
  {
    hide Encode;
    var f, j := fs[0], n - |Encode(fs[0].header)| - 1;
    var tail := f.body + WireAll(fs[1..]);
    assert WireAll(fs) == (Encode(f.header) + [0]) + tail;
    TailSlice(Encode(f.header) + [0], tail, n, c);
    SplitSlice(f.body, WireAll(fs[1..]), j, c);
  }

  lemma TailSlice(head: Bytes, tail: Bytes, n: nat, c: Bytes)
    requires |head| <= n && n + |c| <= |head + tail| && c == (head + tail)[n..n + |c|]
    ensures n - |head| + |c| <= |tail| && c == tail[n - |head|..n - |head| + |c|]
  {
  }

  lemma SplitSlice(left: Bytes, right: Bytes, j: nat, c: Bytes)
    requires j < |left| && j + |c| <= |left + right| && c == (left + right)[j..j + |c|]
    ensures if j + |c| < |left| then c == left[j..j + |c|]
            else var k := |left| - j; c[..k] == left[j..] && c[k..] <= right
  {
    if j + |c| >= |left| {
      var k := |left| - j;
      assert c[k..] == right[..|c| - k];
    }
  }

  // ----- Whole connections -----

  lemma {:induction false} AtEnd(r: Reader, done: seq<Packet>, fs: seq<Frame>)
    requires At(r, done, fs, |WireAll(fs)|)
    ensures r.delivered == done + ReceivedAll(fs)
    decreases |fs|
  {
    hide Encode, Received;
    if |fs| > 0 {
      assert WireAll(fs) == Wire(fs[0]) + WireAll(fs[1..]);
      AtEnd(r, done + [Received(fs[0])], fs[1..]);
      assert ReceivedAll(fs) == [Received(fs[0])] + ReceivedAll(fs[1..]);
      assert done + ReceivedAll(fs) == done + [Received(fs[0])] + ReceivedAll(fs[1..]);
    }
  }

  /** From any place in the stream, whatever was handed on before. */
  lemma {:induction false} RunFrom(r: Reader, done: seq<Packet>, fs: seq<Frame>, n: nat, chunks: seq<Bytes>)
    requires r.Valid() && At(r, done, fs, n) && AllComplete(fs) && r.resets <= MAX_RESETS
    requires NonEmpty(chunks) && n <= |WireAll(fs)| && Concat(chunks) == WireAll(fs)[n..]
    ensures r.FeedAll(chunks).delivered == done + ReceivedAll(fs) <==> SafeFrom(fs, n, r.resets, chunks)
    decreases |chunks|
  {
    hide Parse, Encode, PacketLength, Received, DEFAULT_HEADER, Credit, BadCut, Reader.Feed;
    if |chunks| == 0 {
      AtEnd(r, done, fs);
    } else {
      var c := chunks[0];
      StreamStep(fs, n, chunks);
      CreditAt(r, done, fs, n);
      FeedCredit(r, c);
      AtIsOpen(r, done, fs, n);
      PlaceKnown(r, done, fs, n);
      var s := r.Feed(c);
      var harmless := c != PING_TEXT && (PlaceOf(fs, n) == InHeader ==> r.resets < MAX_RESETS);
      if harmless {
        FeedAt(r, done, fs, n, c);
      }
      if harmless && !BadCut(PlaceOf(fs, n + |c|)) {
        RunFrom(s, done, fs, n + |c|, chunks[1..]);
      } else {
        assert Credit(s) < DeliveredLength(done) + n + |c|;
        RunCredit(s, chunks[1..]);
        DeliveredIsCredited(s.FeedAll(chunks[1..]));
        WrittenLength(fs);
        DeliveredLengthConcat(done, ReceivedAll(fs));
      }
    }
  }

  lemma SliceStep(all: Bytes, n: nat, c: Bytes, rest: Bytes)
    requires n <= |all| && all[n..] == c + rest
    ensures n + |c| + |rest| == |all| && c == all[n..n + |c|] && rest == all[n + |c|..]
  {
    assert all[n..n + |c|] == all[n..][..|c|];
    assert all[n + |c|..] == all[n..][|c|..];
  }

  lemma {:induction false} StreamStep(fs: seq<Frame>, n: nat, chunks: seq<Bytes>)
    requires |chunks| > 0 && NonEmpty(chunks) && n <= |WireAll(fs)| && Concat(chunks) == WireAll(fs)[n..]
    ensures var c := chunks[0];
            && 0 < |c| && n + |c| <= |WireAll(fs)| && c == WireAll(fs)[n..n + |c|]
            && NonEmpty(chunks[1..]) && Concat(chunks[1..]) == WireAll(fs)[n + |c|..]
            && n + |c| + |Concat(chunks[1..])| == |WireAll(fs)|
  {
    hide WireAll;
    SliceStep(WireAll(fs), n, chunks[0], Concat(chunks[1..]));
  }

  lemma DeliveredIsCredited(r: Reader)
    ensures DeliveredLength(r.delivered) <= Credit(r)
  {
  }

  /** Being inside a header shows in the reader's state. */
  lemma {:induction false} PlaceKnown(r: Reader, done: seq<Packet>, fs: seq<Frame>, n: nat)
    requires At(r, done, fs, n)
    ensures PlaceOf(fs, n) == InHeader ==> r.needMore && r.header.action == Noop
    decreases |fs|
  {
    hide Encode, Received;
    if |fs| > 0 && n >= |Wire(fs[0])| {
      PlaceKnown(r, done + [Received(fs[0])], fs[1..], n - |Wire(fs[0])|);
    }
  }

  /** For every list of frames and every way to cut its bytes into non-empty reads, a fresh reader hands on
      exactly the packets written, in order, if and only if the cuts are safe. */
  lemma {:induction false} ChunkIndependence(fs: seq<Frame>, chunks: seq<Bytes>)
    requires AllComplete(fs) && NonEmpty(chunks) && Concat(chunks) == WireAll(fs)
    ensures START.FeedAll(chunks).delivered == ReceivedAll(fs) <==> Safe(fs, chunks)
  {
    IdleReaderGoesOn(START, fs, chunks);
    assert [] + ReceivedAll(fs) == ReceivedAll(fs);
    hide *;
  }

  /** The same for a reader that is between two packets, whatever it has been through. */
  lemma IdleReaderGoesOn(r: Reader, fs: seq<Frame>, chunks: seq<Bytes>)
    requires r.Valid() && r.status == Open && !r.needMore && r.held == [] && r.resets <= MAX_RESETS
    requires AllComplete(fs) && NonEmpty(chunks) && Concat(chunks) == WireAll(fs)
    ensures r.FeedAll(chunks).delivered == r.delivered + ReceivedAll(fs) <==> SafeFrom(fs, 0, r.resets, chunks)
  {
    assert WireAll(fs)[0..] == WireAll(fs);
    hide Encode, Wire, Received;
    RunFrom(r, r.delivered, fs, 0, chunks);
  }

  /** A reader that waits for the rest of a header and has done so five times gives up all that it holds with the next
      read, and goes on as if it were new: whatever is sent after that read arrives exactly when it is cut safely. */
  lemma GivenUpAndGoesOn(r: Reader, c: Bytes, gs: seq<Frame>, chunks: seq<Bytes>)
    requires r.Valid() && r.status == Open && r.needMore && r.header.action == Noop && r.resets == 5
    requires c != [] && c != PING_TEXT
    requires AllComplete(gs) && NonEmpty(chunks) && Concat(chunks) == WireAll(gs)
    ensures r.Feed(c).FeedAll(chunks).delivered == r.delivered + ReceivedAll(gs) <==> Safe(gs, chunks)
  {
    GivesUp(r, c);
    hide *;
    IdleReaderGoesOn(r.Feed(c), gs, chunks);
    SafeIsFromStart(gs, chunks);
  }

  lemma SafeIsFromStart(fs: seq<Frame>, chunks: seq<Bytes>)
    ensures Safe(fs, chunks) <==> SafeFrom(fs, 0, 0, chunks)
  {
  }

  lemma GivesUp(r: Reader, c: Bytes)
    requires r.Valid() && r.status == Open && r.needMore && r.header.action == Noop && r.resets == 5
    requires c != [] && c != PING_TEXT
    ensures var s := r.Feed(c);
            && s.Valid() && s.status == Open && !s.needMore && s.held == [] && s.resets == 0
            && s.delivered == r.delivered && s.pongs == r.pongs
  {
    AbsorbNothing(r.(held := [], resets := 0));
    hide Parse;
  }

  // ----- The same for packets -----

  /** The frame that a packet is written as. */
  function FrameOf(p: Packet, drawn: GdpName): Option<Frame>
    requires |Body(p)| < USIZE_LIMIT
  {
    var h :- GetHeader(p, drawn);
    Some(Frame(h, Body(p)))
  }

  /** Packets that the writer can send, with the guids drawn for them. */
  ghost predicate Sendable(ps: seq<Packet>, drawn: seq<GdpName>) {
    && |drawn| == |ps|
    && forall i :: 0 <= i < |ps| ==> |Body(ps[i])| < USIZE_LIMIT && (ps[i].payload.Some? || ps[i].guid.Some?)
  }

  function FramesOf(ps: seq<Packet>, drawn: seq<GdpName>): (fs: seq<Frame>)
    requires Sendable(ps, drawn)
    ensures |fs| == |ps|
  {
    seq(|ps|, i requires 0 <= i < |ps| => FrameOf(ps[i], drawn[i]).value)
  }

  /** The packet that arrives in place of `p`: its payload is the payload sent followed by the name record. */
  function Arrival(p: Packet, drawn: GdpName): Packet {
    Packet(p.action, p.gdpname, Some(Body(p)), None, Some(if p.guid.Some? then p.guid.value else drawn), p.source)
  }

  function Arrivals(ps: seq<Packet>, drawn: seq<GdpName>): seq<Packet>
    requires |drawn| == |ps|
  {
    seq(|ps|, i requires 0 <= i < |ps| => Arrival(ps[i], drawn[i]))
  }

  lemma FrameArrives(p: Packet, drawn: GdpName)
    requires |Body(p)| < USIZE_LIMIT && (p.payload.Some? || p.guid.Some?)
    ensures var f := FrameOf(p, drawn).value; Complete(f) && Received(f) == Arrival(p, drawn)
  {
  }

  lemma FramesArrive(ps: seq<Packet>, drawn: seq<GdpName>)
    requires Sendable(ps, drawn)
    ensures AllComplete(FramesOf(ps, drawn)) && ReceivedAll(FramesOf(ps, drawn)) == Arrivals(ps, drawn)
  {
    hide Body, FrameOf, Arrival, Received;
    forall i | 0 <= i < |ps|
      ensures Complete(FramesOf(ps, drawn)[i]) && Received(FramesOf(ps, drawn)[i]) == Arrival(ps[i], drawn[i])
    {
      FrameArrives(ps[i], drawn[i]);
    }
  }

  /** Packets arrive complete and in order, through any safe cutting of what the writer puts on the stream,
      and through no other. */
  lemma PacketsArrive(ps: seq<Packet>, drawn: seq<GdpName>, chunks: seq<Bytes>)
    requires Sendable(ps, drawn) && NonEmpty(chunks) && Concat(chunks) == WireAll(FramesOf(ps, drawn))
    ensures START.FeedAll(chunks).delivered == Arrivals(ps, drawn) <==> Safe(FramesOf(ps, drawn), chunks)
  {
    FramesArrive(ps, drawn);
    ChunkIndependence(FramesOf(ps, drawn), chunks);
  }

  // ----- Cuts that lose packets -----

  lemma WireOfOne(f: Frame)
    ensures WireAll([f]) == Wire(f)
  {
    hide Wire;
    assert [f][1..] == [] && Wire(f) + [] == Wire(f);
  }

  lemma TwoReads(a: Bytes, b: Bytes)
    ensures Concat([a, b]) == a + b
  {
    assert [a, b][1..] == [b] && [b][1..] == [];
    assert b + Concat([]) == b;
  }

  /** A cut just before the zero byte of a header ends the connection's reader for good: neither that packet nor
      anything else that is read later is handed on. */
  lemma {:induction false} CutBeforeNulLoses(r: Reader, f: Frame, rest: seq<Bytes>)
    requires r.Valid() && r.status == Open && !r.needMore
    ensures r.FeedAll([Encode(f.header)] + rest).status == Panicked
    ensures r.FeedAll([Encode(f.header)] + rest).delivered == r.delivered
  {
    var text := Encode(f.header);
    HeaderText(f.header);
    HeaderIsLong(f.header);
    ParseHeaderAlone(f.header);
    hide Encode, Parse;
    assert r.Feed(text).status == Panicked && r.Feed(text).delivered == r.delivered;
    assert ([text] + rest)[0] == text && ([text] + rest)[1..] == rest;
    StoppedStays(r.Feed(text), rest);
  }

  lemma {:induction false} StoppedStays(r: Reader, chunks: seq<Bytes>)
    requires r.Valid() && r.status != Open
    ensures r.FeedAll(chunks) == r
    decreases |chunks|
  {
    if |chunks| > 0 {
      StoppedStays(r, chunks[1..]);
    }
  }

  /** A four-byte payload "ping" that arrives in a read of its own is answered, not delivered. */
  lemma {:induction false} PingPayloadLoses(f: Frame)
    requires f.header.length == 4 && f.body == [0x70, 0x69, 0x6e, 0x67]
    ensures START.FeedAll([Encode(f.header) + [0], PING_TEXT]).delivered != ReceivedAll([f])
  {
    hide Encode, Parse, Reader.FeedAll;
    var chunks := [Encode(f.header) + [0], PING_TEXT];
    WireOfOne(f);
    TwoReads(chunks[0], chunks[1]);
    ChunkIndependence([f], chunks);
    assert chunks[1..][0] == PING_TEXT;
    assert !SafeFrom([f], |chunks[0]|, 0, chunks[1..]);
  }

  /** A `Noop` packet whose payload comes in a later read is lost. */
  lemma {:induction false} SplitNoopLoses(f: Frame)
    requires Complete(f) && f.header.action == Noop && |f.body| > 0
    ensures START.FeedAll([Encode(f.header) + [0], f.body]).delivered != ReceivedAll([f])
  {
    hide Encode, Parse, Reader.FeedAll;
    var chunks := [Encode(f.header) + [0], f.body];
    WireOfOne(f);
    TwoReads(chunks[0], chunks[1]);
    ChunkIndependence([f], chunks);
    assert PlaceOf([f], |chunks[0]|) == InBody(Noop);
  }

  /** The first `k` bytes of `b` one by one, then the rest. */
  function Bites(b: Bytes, k: nat): seq<Bytes>
    requires k < |b|
    decreases k
  {
    if k == 0 then [b] else [b[..1]] + Bites(b[1..], k - 1)
  }

  lemma {:induction false} BitesConcat(b: Bytes, k: nat)
    requires k < |b|
    ensures Concat(Bites(b, k)) == b && NonEmpty(Bites(b, k))
    decreases k
  {
    if k == 0 {
      assert [b][1..] == [] && b + Concat([]) == b;
    } else {
      BitesConcat(b[1..], k - 1);
      BitesHead(b, Bites(b[1..], k - 1));
    }
  }

  lemma BitesHead(b: Bytes, rest: seq<Bytes>)
    requires |b| > 0 && Concat(rest) == b[1..] && NonEmpty(rest)
    ensures Concat([b[..1]] + rest) == b && NonEmpty([b[..1]] + rest)
  {
    assert ([b[..1]] + rest)[1..] == rest;
    assert b == b[..1] + b[1..];
  }

  /** A header whose first six bytes arrive one at a time is given up at the seventh read, whatever else is sound; with
      five of them it is not. */
  lemma {:induction false} SixthLateHeaderLoses(f: Frame)
    requires Complete(f)
    ensures |Wire(f)| > 6
    ensures START.FeedAll(Bites(Wire(f), 6)).delivered != ReceivedAll([f])
    ensures START.FeedAll(Bites(Wire(f), 5)).delivered == ReceivedAll([f])
  {
    hide Parse, Reader.FeedAll, Encode;
    HeaderIsLong(f.header);
    WireOfOne(f);
    BitesConcat(Wire(f), 6);
    BitesConcat(Wire(f), 5);
    ChunkIndependence([f], Bites(Wire(f), 6));
    ChunkIndependence([f], Bites(Wire(f), 5));
    hide ReceivedAll, Received, BadCut;
    BitesLate(f, 6, 0);
    BitesLate(f, 5, 0);
  }

  lemma HeaderIsLong(h: Header)
    ensures |Encode(h)| > 7
  {
    hide ActionText, PutNamed, PutLength;
    assert |LabelText(OpenAction)| == 11;
  }

  /** Of the `k` single bytes `n` have been read; each of them but the first completes the header late. */
  lemma {:induction false} BitesLate(f: Frame, k: nat, n: nat)
    requires Complete(f) && n <= k && 5 <= k <= 6 && |Encode(f.header)| > 7
    ensures |Wire(f)| > 7
    ensures SafeFrom([f], n, if n == 0 then 0 else n - 1, Bites(Wire(f)[n..], k - n)) <==> k == 5
    decreases k - n
  {
    hide Encode;
    var b := Wire(f)[n..];
    var chunks := Bites(b, k - n);
    assert PlaceOf([f], n) == if n == 0 then Between else InHeader;
    if n < k {
      assert chunks[0] == b[..1] && |chunks[0]| == 1 && chunks[1..] == Bites(b[1..], k - n - 1);
      assert b[1..] == Wire(f)[n + 1..];
      assert !BadCut(PlaceOf([f], n + 1));
      BitesLate(f, k, n + 1);
    } else {
      assert chunks == [b] && chunks[1..] == [];
      assert b[|Encode(f.header)| - n] == 0;
      assert PlaceOf([f], n + |b|) == Between;
    }
  }
}
