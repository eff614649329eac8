/**
  network/kcp.rs: packets over a byte stream, which the reader gets in pieces of any size, carrying an unfinished
  packet over from one piece to the next.
 */
module KcpFraming {
  import opened Wrappers
  import opened PacketStructs
  import opened Utf8

  // The writer puts a header's text, a zero byte, the payload and an optional name record on the stream.  The main
  // result about the reader, `ChunkIndependence`, says exactly which ways of cutting the stream give back the packets
  // that were written.

  const UDP_BUFFER_SIZE: nat := 65535
  const PING_TEXT: Bytes := [0x70, 0x69, 0x6e, 0x67]
  const MAX_RESETS: nat := 5

  const ZERO_NAME := GdpName(0, 0, 0, 0)
  /** Also the reader's mark for "the header itself is unfinished". */
  const DEFAULT_HEADER := Header(Noop, ZERO_NAME, ZERO_NAME, ZERO_NAME, 0)

  /** A header with the bytes that belong to it. */
  datatype Frame = Frame(header: Header, body: Bytes)

  ghost predicate Complete(f: Frame) {
    f.header.length == |f.body|
  }

  /** What a frame looks like on the stream. */
  function Wire(f: Frame): Bytes {
    Encode(f.header) + [0] + f.body
  }

  function WireAll(fs: seq<Frame>): Bytes {
    if |fs| == 0 then [] else Wire(fs[0]) + WireAll(fs[1..])
  }

  // ----- The writer -----

  /** The stream that a packet becomes; `None` where the source panics for want of a guid. */
  function Written(p: Packet, drawn: GdpName): Option<Bytes>
    requires |Body(p)| < USIZE_LIMIT
  {
    var h :- GetHeader(p, drawn);
    Some(Wire(Frame(h, Body(p))))
  }

  /** A text in pieces as long as there is room for, and what remains. */
  function Cuts(b: Bytes, room: nat): seq<Bytes>
    requires room > 0
  {
    if |b| == 0 then [] else if |b| > room then [b[..room]] + Cuts(b[room..], room) else [b]
  }

  lemma {:induction false} CutsConcat(b: Bytes, room: nat)
    requires room > 0
    ensures Concat(Cuts(b, room)) == b
    ensures forall i :: 0 <= i < |Cuts(b, room)| ==> 0 < |Cuts(b, room)[i]| <= room
    decreases |b|
  {
    if |b| > room {
      CutsConcat(b[room..], room);
      ConcatHead(b[..room], Cuts(b[room..], room));
      assert b == b[..room] + b[room..];
    } else if |b| > 0 {
      ConcatOne(b);
    }
  }

  /** The successive writes of a packet: the header with its zero byte, the payload in pieces, and the record. */
  function Writes(p: Packet, drawn: GdpName): Option<seq<Bytes>>
    requires |Body(p)| < USIZE_LIMIT
  {
    var h :- GetHeader(p, drawn);
    Some([Encode(h) + [0]] + Cuts(OrEmpty(p.payload), UDP_BUFFER_SIZE) +
         if p.nameRecord.Some? then [p.nameRecord.value] else [])
  }

  lemma ConcatOfWrites(text: Bytes, cuts: seq<Bytes>, record: Option<Bytes>)
    ensures Concat([text] + cuts + if record.Some? then [record.value] else []) ==
            text + (Concat(cuts) + OrEmpty(record))
  {
    ConcatHead(text, cuts);
    hide Concat;
    if record.Some? {
      ConcatAppend([text] + cuts, record.value);
      ThreeParts(text, Concat(cuts), record.value);
    } else {
      assert [text] + cuts + [] == [text] + cuts && Concat(cuts) + [] == Concat(cuts);
    }
  }

  lemma WritesAreWritten(p: Packet, drawn: GdpName)
    requires |Body(p)| < USIZE_LIMIT
    ensures Writes(p, drawn).Some? <==> Written(p, drawn).Some?
    ensures Writes(p, drawn).Some? ==> Concat(Writes(p, drawn).value) == Written(p, drawn).value
  {
    hide Encode, Cuts, Concat;
    CutsConcat(OrEmpty(p.payload), UDP_BUFFER_SIZE);
    var h := GetHeader(p, drawn);
    if h.Some? {
      ConcatOfWrites(Encode(h.value) + [0], Cuts(OrEmpty(p.payload), UDP_BUFFER_SIZE), p.nameRecord);
    }
  }

  /** The sending branch of `reader_and_writer`: the successive `write_all` arguments. */
  method WritePacket(p: Packet, drawn: GdpName) returns (writes: Option<seq<Bytes>>)
    requires |Body(p)| < USIZE_LIMIT
    ensures writes == Writes(p, drawn)
    ensures writes.Some? <==> Written(p, drawn).Some?
    ensures writes.Some? ==> Concat(writes.value) == Written(p, drawn).value
    ensures writes.Some? ==>
              forall i :: 0 < i < |writes.value| - (if p.nameRecord.Some? then 1 else 0) ==>
                0 < |writes.value[i]| <= 65535
  {
    hide Encode, Concat;
    WritesAreWritten(p, drawn);
    var header := GetHeader(p, drawn);
    if header.None? {
      return None;
    }
    var text := Encode(header.value) + [0];
    var payload := OrEmpty(p.payload);
    CutsConcat(payload, UDP_BUFFER_SIZE);
    var all := [text];
    var written := 0;
    while written < |payload|
      invariant written <= |payload|
      invariant all + Cuts(payload[written..], UDP_BUFFER_SIZE) == [text] + Cuts(payload, UDP_BUFFER_SIZE)
    {
      var upTo := if |payload| - written > UDP_BUFFER_SIZE then written + UDP_BUFFER_SIZE else |payload|;
      CutsStep(payload, written, upTo);
      all := all + [payload[written..upTo]];
      written := upTo;
    }
    assert Cuts(payload[written..], UDP_BUFFER_SIZE) == [];
    assert all == [text] + Cuts(payload, UDP_BUFFER_SIZE);
    if p.nameRecord.Some? {
      all := all + [p.nameRecord.value];
    }
    return Some(all);
  }

  lemma CutsStep(b: Bytes, written: nat, upTo: nat)
    requires written < |b| && upTo == if |b| - written > UDP_BUFFER_SIZE then written + UDP_BUFFER_SIZE else |b|
    ensures Cuts(b[written..], UDP_BUFFER_SIZE) == [b[written..upTo]] + Cuts(b[upTo..], UDP_BUFFER_SIZE)
  {
    var rest := b[written..];
    if |rest| > UDP_BUFFER_SIZE {
      assert rest[..UDP_BUFFER_SIZE] == b[written..upTo] && rest[UDP_BUFFER_SIZE..] == b[upTo..];
    } else {
      assert rest == b[written..upTo] && b[upTo..] == [];
    }
  }

  // ----- Taking complete frames off a buffer -----

  function NulAt(b: Bytes): (k: nat)
    ensures k <= |b|
    ensures k < |b| ==> b[k] == 0
    ensures forall i :: 0 <= i < k ==> b[i] != 0
  {
    if |b| == 0 || b[0] == 0 then 0 else 1 + NulAt(b[1..])
  }

  /** Complete frames and what is left over, or a panic: `unwrap` on text that is not UTF-8, or the missing
      second part when a header ends the buffer without its zero byte. */
  datatype Parsed = Panic | Parsed(frames: seq<Frame>, rest: Option<Frame>)

  function Prepend(fs: seq<Frame>, p: Parsed): Parsed {
    if p.Panic? then p else Parsed(fs + p.frames, p.rest)
  }

  /** The meaning of `parse_header_payload_pairs`. */
  function Parse(buffer: Bytes): (p: Parsed)
    ensures p.Parsed? && p.rest.Some? && p.rest.value.header.action != Noop ==>
              |p.rest.value.body| < p.rest.value.header.length
    decreases |buffer|
  {
    hide Decode, ValidUtf8, NulAt;
    if |buffer| == 0 then Parsed([], None) else
    var k := NulAt(buffer);
    if !ValidUtf8(buffer[..k]) then Panic else
    match Decode(buffer[..k])
    case None => Parsed([], Some(Frame(DEFAULT_HEADER, buffer[..k])))
    case Some(h) =>
      if k == |buffer| then Panic else
      var remaining := buffer[k + 1..];
      if h.length > |remaining| then Parsed([], Some(Frame(h, remaining)))
      else Prepend([Frame(h, remaining[..h.length])], Parse(remaining[h.length..]))
  }

  method ParseHeaderPayloadPairs(buffer: Bytes) returns (p: Parsed)
    ensures p == Parse(buffer)
  {
    hide Decode, ValidUtf8, NulAt;
    var pairs: seq<Frame> := [];
    var buf := buffer;
    if |buf| == 0 {
      return Parsed(pairs, None);
    }
    while true
      invariant |buf| > 0 && Parse(buffer) == Prepend(pairs, Parse(buf))
      decreases |buf|
    {
      var k := NulAt(buf);
      var text := buf[..k];
      if !ValidUtf8(text) {
        return Panic;
      }
      var header := Decode(text);
      if header.None? {
        return Parsed(pairs, Some(Frame(DEFAULT_HEADER, text)));
      }
      if k == |buf| {
        return Panic;
      }
      var remaining := buf[k + 1..];
      var length := header.value.length;
      if length > |remaining| {
        return Parsed(pairs, Some(Frame(header.value, remaining)));
      } else if length == |remaining| {
        assert remaining[..length] == remaining && remaining[length..] == [];
        return Parsed(pairs + [Frame(header.value, remaining)], None);
      } else {
        ghost var here := [Frame(header.value, remaining[..length])];
        PrependTwice(pairs, here, Parse(remaining[length..]));
        pairs := pairs + [Frame(header.value, remaining[..length])];
        buf := remaining[length..];
      }
    }
  }

  lemma PrependTwice(fs: seq<Frame>, gs: seq<Frame>, p: Parsed)
    ensures Prepend(fs, Prepend(gs, p)) == Prepend(fs + gs, p)
  {
    if p.Parsed? {
      assert fs + (gs + p.frames) == (fs + gs) + p.frames;
    }
  }

  // ----- The reader -----

  /** The packet handed on for a frame: `construct_gdp_packet_with_guid`. */
  function Received(f: Frame): Packet {
    Packet(f.header.action, f.header.destination, Some(f.body), None, Some(f.header.guid), f.header.source)
  }

  function ReceivedAll(fs: seq<Frame>): seq<Packet> {
    seq(|fs|, i requires 0 <= i < |fs| => Received(fs[i]))
  }

  datatype Status = Open | Closed | Panicked

  /** The reader between two reads; `held` is `remaining_gdp_payload`. */
  datatype Reader = Reader(
    status: Status, needMore: bool, header: Header, held: Bytes, resets: nat,
    delivered: seq<Packet>, pongs: nat)
  {
    ghost predicate Valid() {
      needMore && header.action != Noop ==> |held| < header.length
    }

    /** Parses `rest`, hands on `first` and the parsed frames, and keeps what is unfinished. */
    function Absorb(first: seq<Frame>, rest: Bytes): (r: Reader)
      ensures r.Valid()
    {
      match Parse(rest)
      case Panic => this.(status := Panicked, needMore := false, held := [])
      case Parsed(frames, None) =>
        this.(needMore := false, held := [], delivered := delivered + ReceivedAll(first + frames))
      case Parsed(frames, Some(f)) =>
        this.(needMore := true, header := f.header, held := f.body,
              delivered := delivered + ReceivedAll(first + frames))
    }

    /** One read. */
    function Feed(chunk: Bytes): (r: Reader)
      requires Valid()
      ensures r.Valid()
    {
      if status != Open then this
      else if |chunk| == 0 then this.(status := Closed)
      else if chunk == PING_TEXT then this.(pongs := pongs + 1)
      else if !needMore then Absorb([], chunk)
      else if header.action == Noop then
        if resets + 1 > MAX_RESETS then this.(held := [], resets := 0).Absorb([], [])
        else this.(resets := resets + 1).Absorb([], held + chunk)
      else if |held| + |chunk| < header.length then this.(held := held + chunk)
      else
        var k := header.length - |held|;
        Absorb([Frame(header, held + chunk[..k])], chunk[k..])
    }

    function FeedAll(chunks: seq<Bytes>): Reader
      requires Valid()
      decreases |chunks|
    {
      if |chunks| == 0 then this else Feed(chunks[0]).FeedAll(chunks[1..])
    }
  }

  const START := Reader(Open, false, DEFAULT_HEADER, [], 0, [], 0)

  /** The receiving branch of `reader_and_writer`. */
  class Connection {
    var status: Status
    var needMoreDataForPreviousHeader: bool
    var remainingHeader: Header
    var remainingPayload: Bytes
    var resetCounter: nat
    var delivered: seq<Packet>
    var pongs: nat

    ghost function State(): Reader
      reads this
    {
      Reader(status, needMoreDataForPreviousHeader, remainingHeader, remainingPayload, resetCounter, delivered, pongs)
    }

    constructor ()
      ensures State() == START
    {
      status, needMoreDataForPreviousHeader, remainingHeader := Open, false, DEFAULT_HEADER;
      remainingPayload, resetCounter, delivered, pongs := [], 0, [], 0;
    }

    method OnRead(chunk: Bytes)
      requires State().Valid()
      modifies this
      ensures State() == old(State()).Feed(chunk) && State().Valid()
    {
      hide Parse;
      if status != Open {
        return;
      }
      if |chunk| == 0 {
        status := Closed;
        return;
      }
      if chunk == PING_TEXT {
        pongs := pongs + 1;
        return;
      }
      if !needMoreDataForPreviousHeader {
        HandOn([], chunk);
      } else if remainingHeader.action == Noop {
        OnLateHeader(chunk);
      } else {
        OnMorePayload(chunk);
      }
    }

    /** More of an unfinished header: at most five times, and then everything is given up. */
    method OnLateHeader(chunk: Bytes)
      requires State().Valid() && status == Open && |chunk| > 0 && chunk != PING_TEXT
      requires needMoreDataForPreviousHeader && remainingHeader.action == Noop
      modifies this
      ensures State() == old(State()).Feed(chunk) && State().Valid()
    {
      hide Parse;
      remainingPayload := remainingPayload + chunk;
      var buf := remainingPayload;
      resetCounter := resetCounter + 1;
      if resetCounter > 5 {
        buf := [];
        remainingPayload := [];
        resetCounter := 0;
      }
      HandOn([], buf);
    }

    /** More of an unfinished payload, and perhaps of what follows it. */
    method OnMorePayload(chunk: Bytes)
      requires State().Valid() && status == Open && |chunk| > 0 && chunk != PING_TEXT
      requires needMoreDataForPreviousHeader && remainingHeader.action != Noop
      modifies this
      ensures State() == old(State()).Feed(chunk) && State().Valid()
    {
      hide Parse;
      var buf := chunk;
      var size := |remainingPayload| + |chunk|;
      ghost var missing := remainingHeader.length - |remainingPayload|;
      if size < remainingHeader.length {
        remainingPayload := remainingPayload + buf;
        return;
      } else if size == remainingHeader.length {
        assert chunk[..missing] == chunk && chunk[missing..] == [];
        remainingPayload := remainingPayload + buf;
        buf := [];
      } else {
        var numRemaining := remainingHeader.length - |remainingPayload|;
        remainingPayload := remainingPayload + buf[..numRemaining];
        buf := buf[numRemaining..];
      }
      HandOn([Frame(remainingHeader, remainingPayload)], buf);
    }

    /** The part of a read after the carried-over packet: parse, hand on, remember the rest. */
    method HandOn(first: seq<Frame>, buf: Bytes)
      modifies this
      ensures State() == old(State()).Absorb(first, buf) && State().Valid()
    {
      hide Parse;
      var parsed := ParseHeaderPayloadPairs(buf);
      if parsed.Panic? {
        status := Panicked;
        needMoreDataForPreviousHeader := false;
        remainingPayload := [];
        return;
      }
      var pairs := first + parsed.frames;
      for i := 0 to |pairs|
        modifies `delivered
        invariant delivered == old(delivered) + ReceivedAll(pairs[..i])
      {
        delivered := delivered + [Received(pairs[i])];
      }
      assert pairs[..|pairs|] == pairs;
      if parsed.rest.Some? {
        remainingHeader := parsed.rest.value.header;
        remainingPayload := parsed.rest.value.body;
        needMoreDataForPreviousHeader := true;
      } else {
        needMoreDataForPreviousHeader := false;
        remainingPayload := [];
      }
    }
  }
}
