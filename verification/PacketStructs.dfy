/**
  packet_structs.rs: names, actions and the header that precedes every packet on the wire.
 */
module PacketStructs {
  import opened Wrappers

  // The header travels as compact JSON text (RFC 8259, sections 4 to 6): one object, its members in declaration order,
  // names as arrays of four numbers, no insignificant whitespace.

  type Byte = b: int | 0 <= b < 256
  type Bytes = seq<Byte>

  /** Lengths are 64-bit unsigned integers. */
  const USIZE_LIMIT: nat := 0x1_0000_0000_0000_0000
  type Usize = n: nat | n < USIZE_LIMIT

  datatype GdpAction =
    | Noop | Forward | Advertise | AdvertiseResponse | RibGet | RibReply
    | Nack | Control | Request | Response | PING | PONG

  datatype GdpName = GdpName(b0: Byte, b1: Byte, b2: Byte, b3: Byte)

  datatype Header = Header(action: GdpAction, destination: GdpName, source: GdpName, guid: GdpName, length: Usize)

  /** A packet; a name record is carried as the bytes of its JSON text. */
  datatype Packet = Packet(
    action: GdpAction, gdpname: GdpName, payload: Option<Bytes>, nameRecord: Option<Bytes>,
    guid: Option<GdpName>, source: GdpName)

  function OrEmpty(b: Option<Bytes>): Bytes {
    if b.Some? then b.value else []
  }

  /** What follows the header on the wire. */
  function Body(p: Packet): Bytes {
    OrEmpty(p.payload) + OrEmpty(p.nameRecord)
  }

  /** `get_header`; `drawn` is the random guid for a packet that has none.  A packet with neither payload nor
      guid makes the source panic (`None` here).  Byte vectors in memory are always shorter than 2^64. */
  function GetHeader(p: Packet, drawn: GdpName): (h: Option<Header>)
    requires |Body(p)| < USIZE_LIMIT
    ensures h.Some? <==> p.payload.Some? || p.guid.Some?
    ensures h.Some? ==> h.value.length == |Body(p)|
  {
    var recordLength := if p.nameRecord.Some? then |p.nameRecord.value| else 0;
    var guid := if p.guid.Some? then p.guid.value else drawn;
    match p.payload
    case Some(payload) => Some(Header(p.action, p.gdpname, p.source, guid, |payload| + recordLength))
    case None => if p.guid.Some? then Some(Header(p.action, p.gdpname, p.source, guid, recordLength)) else None
  }

  // ----- Bytes in pieces -----

  function Concat(chunks: seq<Bytes>): Bytes {
    if |chunks| == 0 then [] else chunks[0] + Concat(chunks[1..])
  }

  lemma ConcatHead(head: Bytes, rest: seq<Bytes>)
    ensures Concat([head] + rest) == head + Concat(rest)
  {
    assert ([head] + rest)[1..] == rest;
  }

  lemma ConcatOne(b: Bytes)
    ensures Concat([b]) == b
  {
    assert [b][1..] == [] && b + [] == b;
  }

  lemma {:induction false} ConcatAppend(chunks: seq<Bytes>, last: Bytes)
    ensures Concat(chunks + [last]) == Concat(chunks) + last
  {
    if |chunks| == 0 {
      assert chunks + [last] == [last];
    } else {
      assert (chunks + [last])[1..] == chunks[1..] + [last];
      ConcatAppend(chunks[1..], last);
    }
  }

  // ----- Text of a header -----

  ghost predicate IsAscii(s: string) {
    forall i :: 0 <= i < |s| ==> s[i] as int < 128
  }

  function Ascii(s: string): (b: Bytes)
    requires IsAscii(s)
    ensures |b| == |s|
    ensures forall i :: 0 <= i < |s| ==> b[i] == s[i] as int
  {
    seq(|s|, i requires 0 <= i < |s| => s[i] as int)
  }

  predicate IsDigit(b: Byte) {
    48 <= b <= 57
  }

  /** Decimal text, without leading zeros. */
  function Decimal(n: nat): (d: Bytes)
    ensures |d| > 0
    ensures forall i :: 0 <= i < |d| ==> IsDigit(d[i])
    ensures d[0] == 48 ==> n == 0 && |d| == 1
    decreases n
  {
    if n < 10 then [48 + n] else Decimal(n / 10) + [48 + n % 10]
  }

  /** The value that a run of digits denotes. */
  function DecimalValue(d: Bytes): nat
    requires forall i :: 0 <= i < |d| ==> IsDigit(d[i])
  {
    if |d| == 0 then 0
    else assert IsDigit(d[|d| - 1]); 10 * DecimalValue(d[..|d| - 1]) + (d[|d| - 1] as int - 48)
  }

  ghost predicate IsLetters(t: string) {
    forall i :: 0 <= i < |t| ==> 'A' <= t[i] <= 'z'
  }

  function ActionText(a: GdpAction): (t: string)
    ensures IsLetters(t) && IsAscii(t)
  {
    match a
    case Noop => "Noop"
    case Forward => "Forward"
    case Advertise => "Advertise"
    case AdvertiseResponse => "AdvertiseResponse"
    case RibGet => "RibGet"
    case RibReply => "RibReply"
    case Nack => "Nack"
    case Control => "Control"
    case Request => "Request"
    case Response => "Response"
    case PING => "PING"
    case PONG => "PONG"
  }

  /** The fixed pieces of text around the values. */
  datatype Label = OpenAction | OpenDestination | OpenSource | OpenGuid | OpenLength | Close

  function LabelText(l: Label): (t: string)
    ensures IsAscii(t)
    ensures |t| > 0 && (t[0] < '0' || t[0] > '9')
    ensures l == OpenDestination ==> t[0] == '"'
    ensures forall i :: 0 <= i < |t| ==> t[i] != '\0' && (t[i] == '}' <==> l == Close)
    ensures l == Close ==> |t| == 1
  {
    match l
    case OpenAction => "{\"action\":\""
    case OpenDestination => "\",\"destination\":"
    case OpenSource => ",\"source\":"
    case OpenGuid => ",\"guid\":"
    case OpenLength => ",\"length\":"
    case Close => "}"
  }

  // Each writer below puts one piece of text in front of what follows it.

  function PutText(s: string, rest: Bytes): Bytes
    requires IsAscii(s)
  {
    Ascii(s) + rest
  }

  function PutLabel(l: Label, rest: Bytes): Bytes {
    PutText(LabelText(l), rest)
  }

  function PutNumber(n: nat, rest: Bytes): Bytes {
    Decimal(n) + rest
  }

  const COMMA: Byte := 44
  const OPEN_BRACKET: Byte := 91
  const CLOSE_BRACKET: Byte := 93

  /** One array element and the character after it. */
  function PutElement(n: Byte, after: Byte, rest: Bytes): Bytes {
    PutNumber(n, [after] + rest)
  }

  /** Two array elements, the second followed by `after`. */
  function PutPair(m: Byte, n: Byte, after: Byte, rest: Bytes): Bytes {
    PutElement(m, COMMA, PutElement(n, after, rest))
  }

  function PutName(n: GdpName, rest: Bytes): Bytes {
    [OPEN_BRACKET] + PutPair(n.b0, n.b1, COMMA, PutPair(n.b2, n.b3, CLOSE_BRACKET, rest))
  }

  /** A label and the name after it. */
  function PutNamed(l: Label, n: GdpName, rest: Bytes): Bytes {
    PutLabel(l, PutName(n, rest))
  }

  function PutAction(a: GdpAction, rest: Bytes): Bytes {
    PutLabel(OpenAction, PutText(ActionText(a), rest))
  }

  function PutLength(n: nat): Bytes {
    PutLabel(OpenLength, PutNumber(n, PutLabel(Close, [])))
  }

  /** The text that `serde_json::to_string` produces for a header. */
  function Encode(h: Header): Bytes {
    PutAction(h.action, PutNamed(OpenDestination, h.destination, PutNamed(OpenSource, h.source,
    PutNamed(OpenGuid, h.guid, PutLength(h.length)))))
  }

  function PairText(m: Byte, n: Byte): Bytes {
    Decimal(m) + Ascii(",") + Decimal(n)
  }

  /** An array of a name's four numbers. */
  function ArrayText(n: GdpName): Bytes {
    Ascii("[") + PairText(n.b0, n.b1) + Ascii(",") + PairText(n.b2, n.b3) + Ascii("]")
  }

  lemma PutPairIs(m: Byte, n: Byte, after: Byte, rest: Bytes)
    ensures PutPair(m, n, after, rest) == PairText(m, n) + ([after] + rest)
  {
    assert Ascii(",") == [44];
    hide Decimal, Ascii;
  }

  lemma PutNameIs(n: GdpName, rest: Bytes)
    ensures PutName(n, rest) == ArrayText(n) + rest
  {
    assert Ascii(",") == [44] && Ascii("[") == [91] && Ascii("]") == [93];
    PutPairIs(n.b2, n.b3, CLOSE_BRACKET, rest);
    PutPairIs(n.b0, n.b1, COMMA, PutPair(n.b2, n.b3, CLOSE_BRACKET, rest));
    hide Ascii, PutPair, PairText;
  }

  lemma PutNamedIs(l: Label, n: GdpName, rest: Bytes)
    ensures PutNamed(l, n, rest) == Ascii(LabelText(l)) + ArrayText(n) + rest
  {
    PutNameIs(n, rest);
    ThreeParts(Ascii(LabelText(l)), ArrayText(n), rest);
    hide PutName, ArrayText, LabelText, Ascii;
  }

  /** A header's text is this JSON object, whatever its values. */
  lemma HeaderIsJson(h: Header)
    ensures Encode(h) ==
            Ascii("{\"action\":\"") + Ascii(ActionText(h.action)) + (
            Ascii("\",\"destination\":") + ArrayText(h.destination) + (
            Ascii(",\"source\":") + ArrayText(h.source) + (
            Ascii(",\"guid\":") + ArrayText(h.guid) + (
            Ascii(",\"length\":") + Decimal(h.length) + Ascii("}")))))
  {
    var length := PutLength(h.length);
    assert length == Ascii(",\"length\":") + Decimal(h.length) + Ascii("}") by {
      hide Decimal, Ascii;
    }
    hide PutLength, ActionText, ArrayText, Decimal, PutNamed, Ascii;
    PutNamedIs(OpenGuid, h.guid, length);
    var guid := PutNamed(OpenGuid, h.guid, length);
    PutNamedIs(OpenSource, h.source, guid);
    var source := PutNamed(OpenSource, h.source, guid);
    PutNamedIs(OpenDestination, h.destination, source);
    var destination := PutNamed(OpenDestination, h.destination, source);
    ThreeParts(Ascii(LabelText(OpenAction)), Ascii(ActionText(h.action)), destination);
  }

  /** The names by which actions travel. */
  lemma ActionNames()
    ensures ActionText(Noop) == "Noop" && ActionText(Forward) == "Forward" && ActionText(Advertise) == "Advertise"
    ensures ActionText(AdvertiseResponse) == "AdvertiseResponse" && ActionText(RibGet) == "RibGet"
    ensures ActionText(RibReply) == "RibReply" && ActionText(Nack) == "Nack" && ActionText(Control) == "Control"
    ensures ActionText(Request) == "Request" && ActionText(Response) == "Response"
    ensures ActionText(PING) == "PING" && ActionText(PONG) == "PONG"
  {
  }

  // ----- Reading a header back -----

  /** Removes a fixed text. */
  function GetText(s: string, t: Bytes): (r: Option<Bytes>)
    requires IsAscii(s)
  {
    if |s| <= |t| && t[..|s|] == Ascii(s) then Some(t[|s|..]) else None
  }

  /** The length of the longest run of digits. */
  function DigitRun(t: Bytes): (k: nat)
    ensures k <= |t|
    ensures forall i :: 0 <= i < k ==> IsDigit(t[i])
    ensures k < |t| ==> !IsDigit(t[k])
  {
    if |t| == 0 || !IsDigit(t[0]) then 0 else 1 + DigitRun(t[1..])
  }

  function GetNumber(t: Bytes): Option<(nat, Bytes)> {
    var k := DigitRun(t);
    if k == 0 || (k > 1 && t[0] == 48) then None else Some((DecimalValue(t[..k]), t[k..]))
  }

  function GetLabel(l: Label, t: Bytes): Option<Bytes> {
    GetText(LabelText(l), t)
  }

  function GetElement(after: Byte, t: Bytes): Option<(Byte, Bytes)> {
    var (n, t) :- GetNumber(t);
    if n < 256 && |t| > 0 && t[0] == after then Some((n, t[1..])) else None
  }

  function GetPair(after: Byte, t: Bytes): Option<(Byte, Byte, Bytes)> {
    var (m, t) :- GetElement(COMMA, t);
    var (n, t) :- GetElement(after, t);
    Some((m, n, t))
  }

  function GetName(t: Bytes): Option<(GdpName, Bytes)> {
    if |t| == 0 || t[0] != OPEN_BRACKET then None else
    var (b0, b1, t) :- GetPair(COMMA, t[1..]);
    var (b2, b3, t) :- GetPair(CLOSE_BRACKET, t);
    Some((GdpName(b0, b1, b2, b3), t))
  }

  function GetNamed(l: Label, t: Bytes): Option<(GdpName, Bytes)> {
    var t :- GetLabel(l, t);
    GetName(t)
  }

  /** The position of the first closing quotation mark, or the length of the text. */
  function QuoteAt(t: Bytes): (k: nat)
    ensures k <= |t|
    ensures k < |t| ==> t[k] == 34
    ensures forall i :: 0 <= i < k ==> t[i] != 34
  {
    if |t| == 0 || t[0] == 34 then 0 else 1 + QuoteAt(t[1..])
  }

  const ALL_ACTIONS: seq<GdpAction> :=
    [Noop, Forward, Advertise, AdvertiseResponse, RibGet, RibReply, Nack, Control, Request, Response, PING, PONG]

  function FindAction(name: Bytes, candidates: seq<GdpAction>): Option<GdpAction> {
    if |candidates| == 0 then None
    else if Ascii(ActionText(candidates[0])) == name then Some(candidates[0])
    else FindAction(name, candidates[1..])
  }

  function GetAction(t: Bytes): Option<(GdpAction, Bytes)> {
    var t :- GetLabel(OpenAction, t);
    var k := QuoteAt(t);
    var a :- FindAction(t[..k], ALL_ACTIONS);
    Some((a, t[k..]))
  }

  function GetLength(t: Bytes): Option<Usize> {
    var t :- GetLabel(OpenLength, t);
    var (n, t) :- GetNumber(t);
    var t :- GetLabel(Close, t);
    if |t| == 0 && n < USIZE_LIMIT then Some(n) else None
  }

  /** `serde_json::from_str::<GDPHeaderInTransit>` on text in the writer's own form. */
  function Decode(t: Bytes): Option<Header> {
    var (action, t) :- GetAction(t);
    var (destination, t) :- GetNamed(OpenDestination, t);
    var (source, t) :- GetNamed(OpenSource, t);
    var (guid, t) :- GetNamed(OpenGuid, t);
    var length :- GetLength(t);
    Some(Header(action, destination, source, guid, length))
  }

  // ----- The two directions agree -----

  lemma GetTextIff(s: string, t: Bytes, rest: Bytes)
    requires IsAscii(s)
    ensures GetText(s, t) == Some(rest) <==> t == PutText(s, rest)
  {
    if GetText(s, t) == Some(rest) {
      assert t == t[..|s|] + t[|s|..];
    }
  }

  lemma {:induction false} DecimalOfValue(d: Bytes)
    requires |d| > 0 && (forall i :: 0 <= i < |d| ==> IsDigit(d[i])) && (d[0] == 48 ==> |d| == 1)
    ensures Decimal(DecimalValue(d)) == d
    ensures |d| > 1 ==> DecimalValue(d) >= 10
    decreases |d|
  {
    var front, last := d[..|d| - 1], d[|d| - 1];
    assert d == front + [last];
    if |front| == 0 {
      assert DecimalValue(front) == 0;
    } else {
      assert front[0] == d[0];
      DecimalOfValue(front);
      assert |front| == 1 ==> front[..0] == [];
      assert DecimalValue(front) >= 1;
      assert DecimalValue(d) / 10 == DecimalValue(front) && DecimalValue(d) % 10 == last - 48;
    }
  }

  lemma {:induction false} ValueOfDecimal(n: nat)
    ensures DecimalValue(Decimal(n)) == n
    decreases n
  {
    if n >= 10 {
      ValueOfDecimal(n / 10);
      assert Decimal(n)[..|Decimal(n)| - 1] == Decimal(n / 10);
    } else {
      assert Decimal(n)[..0] == [];
    }
  }

  lemma {:induction false} DigitRunOf(d: Bytes, rest: Bytes)
    requires forall i :: 0 <= i < |d| ==> IsDigit(d[i])
    requires |rest| > 0 ==> !IsDigit(rest[0])
    ensures DigitRun(d + rest) == |d|
    decreases |d|
  {
    if |d| == 0 {
      assert d + rest == rest;
    } else {
      assert (d + rest)[1..] == d[1..] + rest;
      DigitRunOf(d[1..], rest);
    }
  }

  lemma GetNumberOfPut(n: nat, rest: Bytes)
    requires |rest| > 0 ==> !IsDigit(rest[0])
    ensures GetNumber(PutNumber(n, rest)) == Some((n, rest))
  {
    var t := PutNumber(n, rest);
    DigitRunOf(Decimal(n), rest);
    assert t[..|Decimal(n)|] == Decimal(n) && t[|Decimal(n)|..] == rest;
    ValueOfDecimal(n);
    if t[0] == 48 {
      assert Decimal(n)[0] == 48;
    }
  }

  lemma PutOfGetNumber(t: Bytes, n: nat, rest: Bytes)
    requires GetNumber(t) == Some((n, rest))
    ensures t == PutNumber(n, rest)
  {
    var k := DigitRun(t);
    DecimalOfValue(t[..k]);
    assert t == t[..k] + t[k..];
  }

  lemma GetElementIff(after: Byte, t: Bytes, n: Byte, rest: Bytes)
    requires !IsDigit(after)
    ensures GetElement(after, t) == Some((n, rest)) <==> t == PutElement(n, after, rest)
  {
    if t == PutElement(n, after, rest) {
      GetNumberOfPut(n, [after] + rest);
      assert ([after] + rest)[1..] == rest;
    }
    if GetElement(after, t) == Some((n, rest)) {
      var r := GetNumber(t).value.1;
      PutOfGetNumber(t, n, r);
      assert r == [after] + rest;
    }
  }

  lemma GetPairIff(after: Byte, t: Bytes, m: Byte, n: Byte, rest: Bytes)
    requires !IsDigit(after)
    ensures GetPair(after, t) == Some((m, n, rest)) <==> t == PutPair(m, n, after, rest)
  {
    var r := PutElement(n, after, rest);
    GetElementIff(COMMA, t, m, r);
    GetElementIff(after, r, n, rest);
    if GetPair(after, t) == Some((m, n, rest)) {
      var s := GetElement(COMMA, t).value.1;
      GetElementIff(COMMA, t, m, s);
      GetElementIff(after, s, n, rest);
    }
  }

  lemma {:induction false} GetNameOfPut(n: GdpName, rest: Bytes)
    ensures GetName(PutName(n, rest)) == Some((n, rest))
  {
    var r := PutPair(n.b2, n.b3, CLOSE_BRACKET, rest);
    var q := PutPair(n.b0, n.b1, COMMA, r);
    assert PutName(n, rest)[1..] == q;
    GetPairIff(COMMA, q, n.b0, n.b1, r);
    GetPairIff(CLOSE_BRACKET, r, n.b2, n.b3, rest);
  }

  lemma HeadAndTail(t: Bytes, head: Byte)
    requires |t| > 0 && t[0] == head
    ensures t == [head] + t[1..]
  {
  }

  lemma {:induction false} PutOfGetName(t: Bytes, n: GdpName, rest: Bytes)
    requires GetName(t) == Some((n, rest))
    ensures t == PutName(n, rest)
  {
    HeadAndTail(t, OPEN_BRACKET);
    var s := GetPair(COMMA, t[1..]).value.2;
    GetPairIff(COMMA, t[1..], n.b0, n.b1, s);
    GetPairIff(CLOSE_BRACKET, s, n.b2, n.b3, rest);
  }

  lemma {:induction false} GetNameIff(t: Bytes, n: GdpName, rest: Bytes)
    ensures GetName(t) == Some((n, rest)) <==> t == PutName(n, rest)
  {
    GetNameOfPut(n, rest);
    if GetName(t) == Some((n, rest)) {
      PutOfGetName(t, n, rest);
    }
  }

  lemma {:induction false} GetNamedIff(l: Label, t: Bytes, n: GdpName, rest: Bytes)
    ensures GetNamed(l, t) == Some((n, rest)) <==> t == PutNamed(l, n, rest)
  {
    GetTextIff(LabelText(l), t, PutName(n, rest));
    if GetLabel(l, t).Some? {
      var r := GetLabel(l, t).value;
      GetTextIff(LabelText(l), t, r);
      GetNameIff(r, n, rest);
    }
  }

  lemma {:induction false} QuoteAtOf(name: Bytes, rest: Bytes)
    requires forall i :: 0 <= i < |name| ==> name[i] != 34
    requires |rest| > 0 && rest[0] == 34
    ensures QuoteAt(name + rest) == |name|
    decreases |name|
  {
    if |name| > 0 {
      assert (name + rest)[1..] == name[1..] + rest;
      QuoteAtOf(name[1..], rest);
    } else {
      assert name + rest == rest;
    }
  }

  lemma {:induction false} FindActionSound(name: Bytes, candidates: seq<GdpAction>)
    ensures FindAction(name, candidates).Some? ==> name == Ascii(ActionText(FindAction(name, candidates).value))
    ensures forall a :: a in candidates && Ascii(ActionText(a)) == name ==> FindAction(name, candidates).Some?
  {
    if |candidates| > 0 {
      FindActionSound(name, candidates[1..]);
    }
  }

  lemma ActionTextsDiffer(a: GdpAction, b: GdpAction)
    requires Ascii(ActionText(a)) == Ascii(ActionText(b))
    ensures a == b
  {
    var s, t := ActionText(a), ActionText(b);
    assert forall i :: 0 <= i < |s| ==> s[i] as int == Ascii(s)[i] && t[i] as int == Ascii(t)[i];
    assert s == t;
  }

  lemma EveryActionListed(a: GdpAction)
    ensures a in ALL_ACTIONS
  {
    assert a == ALL_ACTIONS[
      match a case Noop => 0 case Forward => 1 case Advertise => 2 case AdvertiseResponse => 3 case RibGet => 4
      case RibReply => 5 case Nack => 6 case Control => 7 case Request => 8 case Response => 9 case PING => 10
      case PONG => 11];
  }

  lemma GetActionOfPut(a: GdpAction, rest: Bytes)
    requires |rest| > 0 && rest[0] == 34
    ensures GetAction(PutAction(a, rest)) == Some((a, rest))
  {
    var name := Ascii(ActionText(a));
    GetTextIff(LabelText(OpenAction), PutAction(a, rest), name + rest);
    assert forall i :: 0 <= i < |ActionText(a)| ==> 'A' <= ActionText(a)[i] <= 'z';
    QuoteAtOf(name, rest);
    assert (name + rest)[..|name|] == name && (name + rest)[|name|..] == rest;
    FindActionOf(a);
  }

  lemma FindActionOf(a: GdpAction)
    ensures FindAction(Ascii(ActionText(a)), ALL_ACTIONS) == Some(a)
  {
    var name := Ascii(ActionText(a));
    FindActionSound(name, ALL_ACTIONS);
    EveryActionListed(a);
    ActionTextsDiffer(a, FindAction(name, ALL_ACTIONS).value);
  }

  lemma PutOfGetAction(t: Bytes, a: GdpAction, rest: Bytes)
    requires GetAction(t) == Some((a, rest))
    ensures t == PutAction(a, rest)
  {
    hide ActionText, LabelText, Ascii, QuoteAt;
    var r := GetLabel(OpenAction, t).value;
    GetTextIff(LabelText(OpenAction), t, r);
    FindActionSound(r[..QuoteAt(r)], ALL_ACTIONS);
    hide FindAction;
    assert r == r[..QuoteAt(r)] + rest;
  }

  lemma GetActionIff(t: Bytes, a: GdpAction, rest: Bytes)
    requires |rest| > 0 && rest[0] == 34
    ensures GetAction(t) == Some((a, rest)) <==> t == PutAction(a, rest)
  {
    GetActionOfPut(a, rest);
    if GetAction(t) == Some((a, rest)) {
      PutOfGetAction(t, a, rest);
    }
  }

  lemma GetLengthIff(t: Bytes, n: Usize)
    ensures GetLength(t) == Some(n) <==> t == PutLength(n)
  {
    var close := PutLabel(Close, []);
    GetTextIff(LabelText(OpenLength), t, PutNumber(n, close));
    GetTextIff(LabelText(Close), close, []);
    GetNumberOfPut(n, close);
    if GetLength(t) == Some(n) {
      var r := GetLabel(OpenLength, t).value;
      GetTextIff(LabelText(OpenLength), t, r);
      var c := GetNumber(r).value.1;
      PutOfGetNumber(r, n, c);
      GetTextIff(LabelText(Close), c, []);
    }
  }

  /** A length is read back exactly if it fits into 64 bits. */
  lemma LengthsThatFit(n: nat)
    ensures GetLength(PutLength(n)) == if n <= 18446744073709551615 then Some(n) else None
  {
    var close := PutLabel(Close, []);
    GetTextIff(LabelText(OpenLength), PutLength(n), PutNumber(n, close));
    GetTextIff(LabelText(Close), close, []);
    GetNumberOfPut(n, close);
  }

  /** The decoder accepts exactly the texts that the encoder produces, and returns what was encoded. */
  lemma DecodeIff(t: Bytes, h: Header)
    ensures Decode(t) == Some(h) <==> t == Encode(h)
  {
    var r4 := PutLength(h.length);
    var r3 := PutNamed(OpenGuid, h.guid, r4);
    var r2 := PutNamed(OpenSource, h.source, r3);
    var r1 := PutNamed(OpenDestination, h.destination, r2);
    if t == Encode(h) {
      GetActionIff(t, h.action, r1);
      GetNamedIff(OpenDestination, r1, h.destination, r2);
      GetNamedIff(OpenSource, r2, h.source, r3);
      GetNamedIff(OpenGuid, r3, h.guid, r4);
      GetLengthIff(r4, h.length);
    }
    if Decode(t) == Some(h) {
      EncodeOfDecode(t, h);
    }
  }

  lemma {:induction false} EncodeOfDecode(t: Bytes, h: Header)
    requires Decode(t) == Some(h)
    ensures t == Encode(h)
  {
    var s1 := GetAction(t).value.1;
    var s2 := GetNamed(OpenDestination, s1).value.1;
    var s3 := GetNamed(OpenSource, s2).value.1;
    var s4 := GetNamed(OpenGuid, s3).value.1;
    GetLengthIff(s4, h.length);
    GetNamedIff(OpenGuid, s3, h.guid, s4);
    GetNamedIff(OpenSource, s2, h.source, s3);
    GetNamedIff(OpenDestination, s1, h.destination, s2);
    assert |s1| > 0 && s1[0] == 34;
    GetActionIff(t, h.action, s1);
  }

  // ----- No zero byte, and no proper prefix is a header -----

  /** Characters that can stand anywhere in a header's text except at its end. */
  predicate IsPlain(b: Byte) {
    0 < b < 128 && b != 125
  }

  /** `t` is a text of plain characters followed by `rest`. */
  ghost predicate PlainBefore(t: Bytes, rest: Bytes) {
    && |rest| <= |t|
    && t[|t| - |rest|..] == rest
    && forall i :: 0 <= i < |t| - |rest| ==> IsPlain(t[i])
  }

  lemma PlainText(d: Bytes, t: Bytes, rest: Bytes)
    requires PlainBefore(t, rest) && (forall i :: 0 <= i < |d| ==> IsPlain(d[i]))
    ensures PlainBefore(d + t, rest)
  {
  }

  lemma PlainNamed(l: Label, n: GdpName, t: Bytes, rest: Bytes)
    requires PlainBefore(t, rest) && l != Close
    ensures PlainBefore(PutNamed(l, n, t), rest)
  {
    PlainPair(n.b2, n.b3, CLOSE_BRACKET, t, rest);
    var r := PutPair(n.b2, n.b3, CLOSE_BRACKET, t);
    PlainPair(n.b0, n.b1, COMMA, r, rest);
    PlainText([OPEN_BRACKET], PutPair(n.b0, n.b1, COMMA, r), rest);
    PlainText(Ascii(LabelText(l)), PutName(n, t), rest);
  }

  lemma PlainPair(m: Byte, n: Byte, after: Byte, t: Bytes, rest: Bytes)
    requires PlainBefore(t, rest) && IsPlain(after)
    ensures PlainBefore(PutPair(m, n, after, t), rest)
  {
    PlainElement(n, after, t, rest);
    PlainElement(m, COMMA, PutElement(n, after, t), rest);
  }

  lemma PlainElement(n: Byte, after: Byte, t: Bytes, rest: Bytes)
    requires PlainBefore(t, rest) && IsPlain(after)
    ensures PlainBefore(PutElement(n, after, t), rest)
  {
    PlainText([after], t, rest);
    PlainText(Decimal(n), [after] + t, rest);
  }

  lemma PlainLength(n: nat)
    ensures PutLabel(Close, []) == [125]
    ensures PlainBefore(PutLength(n), [125])
  {
    assert LabelText(Close)[0] == '}';
    assert PutLabel(Close, []) == [125];
    PlainText(Decimal(n), [125], [125]);
    PlainText(Ascii(LabelText(OpenLength)), PutNumber(n, [125]), [125]);
  }

  lemma PlainAction(a: GdpAction, t: Bytes, rest: Bytes)
    requires PlainBefore(t, rest)
    ensures PlainBefore(PutAction(a, t), rest)
  {
    assert forall i :: 0 <= i < |ActionText(a)| ==> 'A' <= ActionText(a)[i] <= 'z';
    PlainText(Ascii(ActionText(a)), t, rest);
    PlainText(Ascii(LabelText(OpenAction)), PutText(ActionText(a), t), rest);
  }

  lemma {:induction false} PlainEncode(h: Header)
    ensures PlainBefore(Encode(h), [125])
  {
    var r4 := PutLength(h.length);
    PlainLength(h.length);
    var r3 := PutNamed(OpenGuid, h.guid, r4);
    PlainNamed(OpenGuid, h.guid, r4, [125]);
    var r2 := PutNamed(OpenSource, h.source, r3);
    PlainNamed(OpenSource, h.source, r3, [125]);
    var r1 := PutNamed(OpenDestination, h.destination, r2);
    PlainNamed(OpenDestination, h.destination, r2, [125]);
    PlainAction(h.action, r1, [125]);
  }

  lemma PlainBeforeBrace(t: Bytes)
    requires PlainBefore(t, [125])
    ensures |t| > 0
    ensures forall i :: 0 <= i < |t| ==> 0 < t[i] < 128
    ensures forall i :: 0 <= i < |t| ==> (t[i] == 125 <==> i == |t| - 1)
  {
    assert t[|t| - 1] == t[|t| - 1..][0] == 125;
  }

  /** A header's text is ASCII without zero byte, and its only closing brace is its last character. */
  lemma {:induction false} HeaderText(h: Header)
    ensures |Encode(h)| > 0
    ensures forall i :: 0 <= i < |Encode(h)| ==> 0 < Encode(h)[i] < 128
    ensures forall i :: 0 <= i < |Encode(h)| ==> (Encode(h)[i] == 125 <==> i == |Encode(h)| - 1)
  {
    PlainEncode(h);
    PlainBeforeBrace(Encode(h));
  }

  ghost predicate BraceEnded(t: Bytes) {
    |t| > 0 && forall i :: 0 <= i < |t| ==> (t[i] == 125 <==> i == |t| - 1)
  }

  lemma BraceEndedIsPrefixFree(t: Bytes, k: nat)
    requires BraceEnded(t) && k < |t|
    ensures !BraceEnded(t[..k])
  {
    if k > 0 {
      assert t[k - 1] == t[..k][k - 1];
    }
  }

  /** No proper prefix of a header's text is itself a header. */
  lemma {:induction false} NoPrefixDecodes(h: Header, k: nat)
    requires k < |Encode(h)|
    ensures Decode(Encode(h)[..k]).None?
  {
    HeaderText(h);
    BraceEndedIsPrefixFree(Encode(h), k);
    DecodedIsBraceEnded(Encode(h)[..k]);
  }

  lemma {:induction false} DecodedIsBraceEnded(t: Bytes)
    ensures Decode(t).Some? ==> BraceEnded(t)
  {
    if Decode(t).Some? {
      DecodeIff(t, Decode(t).value);
      HeaderText(Decode(t).value);
    }
  }

  /** Two headers with the same text are the same header. */
  lemma EncodeInjective(g: Header, h: Header)
    requires Encode(g) == Encode(h)
    ensures g == h
  {
    DecodeIff(Encode(g), g);
    DecodeIff(Encode(h), h);
  }
}
