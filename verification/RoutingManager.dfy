/**
  fogrs-core/src/routing_manager.rs: directions, and the topics over which senders and receivers of one name find
  each other through the signaling server.

  A client listens at the key of its opposite, looked up in lower case, and publishes at the key as it was spelled.
 */
module RoutingManager {
  import opened Wrappers
  import opened PacketStructs

  datatype FibConnectionType = SENDER | RECEIVER | REQUESTSENDER | REQUESTRECEIVER | RESPONSESENDER | RESPONSERECEIVER

  // ----- Letter case, for ASCII letters -----

  function LowerChar(c: char): char {
    if 'A' <= c <= 'Z' then c - 'A' + 'a' else c
  }

  function UpperChar(c: char): char {
    if 'a' <= c <= 'z' then c - 'a' + 'A' else c
  }

  function Lower(s: string): (r: string)
    ensures |r| == |s|
  {
    seq(|s|, i requires 0 <= i < |s| => LowerChar(s[i]))
  }

  function Upper(s: string): (r: string)
    ensures |r| == |s|
  {
    seq(|s|, i requires 0 <= i < |s| => UpperChar(s[i]))
  }

  // ----- Directions -----

  const MAPPING: seq<(string, string)> := [
    ("request-receiver", "request-sender"),
    ("request-sender", "request-receiver"),
    ("response-sender", "response-receiver"),
    ("response-receiver", "response-sender"),
    ("pubsub-sender", "pubsub-receiver"),
    ("pubsub-receiver", "pubsub-sender")]

  /** The direction at the other end; `None` where the source panics. */
  function Flip(direction: string): Option<string> {
    match Lower(direction)
    case "request-receiver" => Some("request-sender")
    case "request-sender" => Some("request-receiver")
    case "response-sender" => Some("response-receiver")
    case "response-receiver" => Some("response-sender")
    case "pubsub-sender" => Some("pubsub-receiver")
    case "pubsub-receiver" => Some("pubsub-sender")
    case _ => None
  }

  /** `flip_direction`: the first entry of the table whose key is the direction in lower case. */
  method FlipDirection(direction: string) returns (flipped: Option<string>)
    ensures flipped == Flip(direction)
  {
    for i := 0 to |MAPPING|
      invariant forall j :: 0 <= j < i ==> MAPPING[j].0 != Lower(direction)
    {
      if MAPPING[i].0 == Lower(direction) {
        return Some(MAPPING[i].1);
      }
    }
    assert MAPPING[0].0 != Lower(direction) && MAPPING[1].0 != Lower(direction) && MAPPING[2].0 != Lower(direction);
    assert MAPPING[3].0 != Lower(direction) && MAPPING[4].0 != Lower(direction) && MAPPING[5].0 != Lower(direction);
    return None;
  }

  /** `direction_str_to_connection_type`; `None` where the source panics. */
  function ConnectionType(direction: string): Option<FibConnectionType> {
    match Upper(direction)
    case "PUBSUB-SENDER" => Some(SENDER)
    case "PUBSUB-RECEIVER" => Some(RECEIVER)
    case "REQUEST-SENDER" => Some(REQUESTSENDER)
    case "REQUEST-RECEIVER" => Some(REQUESTRECEIVER)
    case "RESPONSE-SENDER" => Some(RESPONSESENDER)
    case "RESPONSE-RECEIVER" => Some(RESPONSERECEIVER)
    case _ => None
  }

  function Opposite(c: FibConnectionType): FibConnectionType {
    match c
    case SENDER => RECEIVER
    case RECEIVER => SENDER
    case REQUESTSENDER => REQUESTRECEIVER
    case REQUESTRECEIVER => REQUESTSENDER
    case RESPONSESENDER => RESPONSERECEIVER
    case RESPONSERECEIVER => RESPONSESENDER
  }

  lemma LowerOfUpper(s: string)
    ensures Lower(Upper(s)) == Lower(s)
    ensures Upper(Lower(s)) == Upper(s)
    ensures Lower(Lower(s)) == Lower(s)
  {
  }

  // The known directions, in both spellings.

  lemma SpelledPubsubSender()
    ensures Upper("pubsub-sender") == "PUBSUB-SENDER"
    ensures Lower("PUBSUB-SENDER") == "pubsub-sender"
  {
  }

  lemma SpelledPubsubReceiver()
    ensures Upper("pubsub-receiver") == "PUBSUB-RECEIVER"
    ensures Lower("PUBSUB-RECEIVER") == "pubsub-receiver"
  {
  }

  lemma SpelledRequestSender()
    ensures Upper("request-sender") == "REQUEST-SENDER"
    ensures Lower("REQUEST-SENDER") == "request-sender"
  {
  }

  lemma SpelledRequestReceiver()
    ensures Upper("request-receiver") == "REQUEST-RECEIVER"
    ensures Lower("REQUEST-RECEIVER") == "request-receiver"
  {
  }

  lemma SpelledResponseSender()
    ensures Upper("response-sender") == "RESPONSE-SENDER"
    ensures Lower("RESPONSE-SENDER") == "response-sender"
  {
  }

  lemma SpelledResponseReceiver()
    ensures Upper("response-receiver") == "RESPONSE-RECEIVER"
    ensures Lower("RESPONSE-RECEIVER") == "response-receiver"
  {
  }

  lemma Spelled()
    ensures Upper("pubsub-sender") == "PUBSUB-SENDER" && Upper("pubsub-receiver") == "PUBSUB-RECEIVER"
    ensures Upper("request-sender") == "REQUEST-SENDER" && Upper("request-receiver") == "REQUEST-RECEIVER"
    ensures Upper("response-sender") == "RESPONSE-SENDER" && Upper("response-receiver") == "RESPONSE-RECEIVER"
    ensures Lower("PUBSUB-SENDER") == "pubsub-sender" && Lower("PUBSUB-RECEIVER") == "pubsub-receiver"
    ensures Lower("REQUEST-SENDER") == "request-sender" && Lower("REQUEST-RECEIVER") == "request-receiver"
    ensures Lower("RESPONSE-SENDER") == "response-sender" && Lower("RESPONSE-RECEIVER") == "response-receiver"
  {
    hide Lower, Upper;
    SpelledPubsubSender();
    SpelledPubsubReceiver();
    SpelledRequestSender();
    SpelledRequestReceiver();
    SpelledResponseSender();
    SpelledResponseReceiver();
  }

  predicate Known(lower: string) {
    || lower == "pubsub-sender" || lower == "pubsub-receiver" || lower == "request-sender"
    || lower == "request-receiver" || lower == "response-sender" || lower == "response-receiver"
  }

  lemma KnownIsLower(lower: string)
    requires Known(lower)
    ensures Lower(lower) == lower
  {
    Spelled();
    LowerOfUpper(lower);
  }

  lemma FlipOfKnown(direction: string)
    requires Known(direction)
    ensures Flip(direction).Some? && Known(Flip(direction).value) && Flip(direction).value != direction
    ensures Flip(Flip(direction).value) == Some(direction)
  {
    KnownIsLower(direction);
    hide Lower;
    KnownIsLower(Flip(direction).value);
  }

  lemma FlipIgnoresCase(direction: string)
    ensures Flip(direction) == Flip(Lower(direction))
    ensures Flip(direction).Some? <==> Known(Lower(direction))
  {
    LowerOfUpper(direction);
    hide Lower;
  }

  /** Flipping is an involution without fixed points, up to letter case; its results are in lower case. */
  lemma FlipIsAnInvolution(direction: string)
    ensures Flip(direction).Some? ==>
              && Flip(Flip(direction).value) == Some(Lower(direction))
              && Flip(direction).value != Lower(direction)
              && Lower(Flip(direction).value) == Flip(direction).value
  {
    FlipIgnoresCase(direction);
    if Flip(direction).Some? {
      FlipOfKnown(Lower(direction));
      KnownIsLower(Flip(direction).value);
    }
    hide *;
  }

  lemma TypesOfKnown(direction: string)
    requires Known(direction)
    ensures ConnectionType(direction).Some? && Flip(direction).Some?
    ensures ConnectionType(Flip(direction).value) == Some(Opposite(ConnectionType(direction).value))
  {
    Spelled();
    KnownIsLower(direction);
    hide Lower, Upper;
  }

  lemma TypeIgnoresCase(direction: string)
    ensures ConnectionType(direction) == ConnectionType(Lower(direction))
    ensures ConnectionType(direction).Some? ==> Known(Lower(direction))
  {
    LowerOfUpper(direction);
    Spelled();
    hide Lower, Upper;
  }

  /** The two lookups accept the same directions, and the two ends of a connection have opposite types. */
  lemma OppositeTypes(direction: string)
    ensures ConnectionType(direction).Some? <==> Flip(direction).Some?
    ensures Flip(direction).Some? ==>
              ConnectionType(Flip(direction).value) == Some(Opposite(ConnectionType(direction).value))
  {
    FlipIgnoresCase(direction);
    TypeIgnoresCase(direction);
    if Flip(direction).Some? {
      TypesOfKnown(Lower(direction));
    }
    hide *;
  }

  /** Which direction, in any mixture of letter cases, gives which type and which direction at the other end. */
  lemma DirectionsAre(direction: string)
    ensures ConnectionType(direction) == Some(SENDER) <==> Lower(direction) == "pubsub-sender"
    ensures ConnectionType(direction) == Some(RECEIVER) <==> Lower(direction) == "pubsub-receiver"
    ensures ConnectionType(direction) == Some(REQUESTSENDER) <==> Lower(direction) == "request-sender"
    ensures ConnectionType(direction) == Some(REQUESTRECEIVER) <==> Lower(direction) == "request-receiver"
    ensures ConnectionType(direction) == Some(RESPONSESENDER) <==> Lower(direction) == "response-sender"
    ensures ConnectionType(direction) == Some(RESPONSERECEIVER) <==> Lower(direction) == "response-receiver"
  {
    TypeIgnoresCase(direction);
    Spelled();
    hide Lower, Upper;
  }

  // ----- Topics of the signaling server -----

  function HexDigit(n: nat): char
    requires n < 16
  {
    "0123456789abcdef"[n]
  }

  function HexByte(b: Byte): (r: string)
    ensures |r| == 2
  {
    [HexDigit(b / 16), HexDigit(b % 16)]
  }

  /** How a name is printed. */
  function NameText(n: GdpName): (r: string)
    ensures |r| == 15
  {
    "GNAME0x" + HexByte(n.b0) + HexByte(n.b1) + HexByte(n.b2) + HexByte(n.b3)
  }

  function TopicKey(n: GdpName, direction: string): string {
    NameText(n) + "-" + direction
  }

  /** Each byte of a name is two hexadecimal digits, the high one first. */
  lemma HexByteIs(b: Byte)
    ensures forall i :: 0 <= i < 2 ==> '0' <= HexByte(b)[i] <= '9' || 'a' <= HexByte(b)[i] <= 'f'
    ensures HexValue(HexByte(b)[0]) * 16 + HexValue(HexByte(b)[1]) == b
  {
    HexDigitIs(b / 16);
    HexDigitIs(b % 16);
    hide HexDigit, HexValue;
  }

  function HexValue(c: char): int {
    if c <= '9' then c as int - '0' as int else c as int - 'a' as int + 10
  }

  lemma HexDigitIs(n: nat)
    requires n < 16
    ensures HexValue(HexDigit(n)) == n && ('0' <= HexDigit(n) <= '9' || 'a' <= HexDigit(n) <= 'f')
  {
  }

  /** A topic's key: the name after "GNAME0x", its bytes in order, a hyphen, and the direction. */
  lemma TopicKeyIs(n: GdpName, direction: string)
    ensures var k := TopicKey(n, direction);
            && |k| == 16 + |direction| && k[..7] == "GNAME0x" && k[15] == '-' && k[16..] == direction
            && k[7..9] == HexByte(n.b0) && k[9..11] == HexByte(n.b1)
            && k[11..13] == HexByte(n.b2) && k[13..15] == HexByte(n.b3)
  {
    hide HexByte;
  }

  lemma HexDigitInjective(m: nat, n: nat)
    requires m < 16 && n < 16 && HexDigit(m) == HexDigit(n)
    ensures m == n
  {
  }

  lemma {:induction false} HexByteInjective(a: Byte, b: Byte)
    requires HexByte(a) == HexByte(b)
    ensures a == b
  {
    assert HexByte(a)[0] == HexByte(b)[0] && HexByte(a)[1] == HexByte(b)[1];
    HexDigitInjective(a / 16, b / 16);
    HexDigitInjective(a % 16, b % 16);
  }

  lemma NameTextInjective(m: GdpName, n: GdpName)
    requires NameText(m) == NameText(n)
    ensures m == n
  {
    var s, t := NameText(m), NameText(n);
    hide HexByte;
    assert s[7..9] == HexByte(m.b0) && t[7..9] == HexByte(n.b0);
    assert s[9..11] == HexByte(m.b1) && t[9..11] == HexByte(n.b1);
    assert s[11..13] == HexByte(m.b2) && t[11..13] == HexByte(n.b2);
    assert s[13..15] == HexByte(m.b3) && t[13..15] == HexByte(n.b3);
    HexByteInjective(m.b0, n.b0);
    HexByteInjective(m.b1, n.b1);
    HexByteInjective(m.b2, n.b2);
    HexByteInjective(m.b3, n.b3);
  }

  /** Different names or directions never share a topic. */
  lemma TopicKeyInjective(m: GdpName, d: string, n: GdpName, e: string)
    requires TopicKey(m, d) == TopicKey(n, e)
    ensures m == n && d == e
  {
    var s, t := TopicKey(m, d), TopicKey(n, e);
    hide NameText;
    assert s[..15] == NameText(m) && t[..15] == NameText(n);
    assert s[16..] == d && t[16..] == e;
    NameTextInjective(m, n);
  }

  /** One registration: the name, the direction and the candidate addresses it publishes. */
  datatype Client<M> = Client(name: GdpName, direction: string, candidates: M) {
    predicate Valid() {
      Flip(direction).Some?
    }

    /** Where `register_stream_sender` and `register_stream_receiver` listen, and where they publish. */
    function ListensTo(): string
      requires Valid()
    {
      TopicKey(name, Flip(direction).value)
    }

    function PublishesTo(): string {
      TopicKey(name, direction)
    }
  }

  /** The two ends of a connection: one name, and directions that differ only in sender and receiver. */
  predicate Ends<M>(a: Client<M>, b: Client<M>) {
    a.name == b.name && Flip(a.direction).Some? && Flip(a.direction).value == Lower(b.direction)
  }

  lemma EndsAreSymmetric<M>(a: Client<M>, b: Client<M>)
    requires a.Valid() && b.Valid()
    ensures Ends(a, b) <==> Ends(b, a)
  {
    FlipIsAnInvolution(a.direction);
    FlipIsAnInvolution(b.direction);
    FlipIgnoresCase(a.direction);
    FlipIgnoresCase(b.direction);
    hide Flip, Lower;
  }

  /** Who publishes where `a` listens: exactly the opposite ends whose direction is spelled in lower case. */
  lemma WhoIsHeard<M>(a: Client<M>, b: Client<M>)
    requires a.Valid() && b.Valid()
    ensures b.PublishesTo() == a.ListensTo() <==> Ends(a, b) && b.direction == Lower(b.direction)
  {
    FlipIsAnInvolution(a.direction);
    if b.PublishesTo() == a.ListensTo() {
      TopicKeyInjective(b.name, b.direction, a.name, Flip(a.direction).value);
    }
  }

  /** A sender that spells its direction "PUBSUB-sender" and the receiver of the same name are opposite ends.  The
      sender hears the receiver, and the receiver does not hear the sender. */
  lemma CapitalsAreNotHeard<M>(name: GdpName, m: M, n: M)
    ensures var sender, receiver := Client(name, "PUBSUB-sender", m), Client(name, "pubsub-receiver", n);
            && sender.Valid() && receiver.Valid() && Ends(sender, receiver) && Ends(receiver, sender)
            && receiver.PublishesTo() == sender.ListensTo() && sender.PublishesTo() != receiver.ListensTo()
  {
    var sender, receiver := Client(name, "PUBSUB-sender", m), Client(name, "pubsub-receiver", n);
    MixedSpelling();
    KnownIsLower("pubsub-receiver");
    FlipOfKnown("pubsub-receiver");
    hide Lower, TopicKey;
    WhoIsHeard(receiver, sender);
    WhoIsHeard(sender, receiver);
    EndsAreSymmetric(sender, receiver);
  }

  lemma MixedSpelling()
    ensures Lower("PUBSUB-sender") == "pubsub-sender" != "PUBSUB-sender"
  {
    assert "PUBSUB-sender"[0] != "pubsub-sender"[0];
  }
}
