/**
  Text as the standard library checks it where network/kcp.rs unwraps it: well-formed UTF-8.

  The check reads one to four bytes at a time.  What passes it is what the encoding of some sequence of scalar values
  looks like.
 */
module Utf8 {
  import opened PacketStructs

  predicate IsContinuation(b: Byte) {
    0x80 <= b < 0xC0
  }

  /** Well-formed UTF-8 (section 4 of RFC 3629). */
  predicate ValidUtf8(b: Bytes) {
    if |b| == 0 then true
    else if b[0] < 0x80 then ValidUtf8(b[1..])
    else if 0xC2 <= b[0] < 0xE0 then |b| >= 2 && IsContinuation(b[1]) && ValidUtf8(b[2..])
    else if 0xE0 <= b[0] < 0xF0 then
      && |b| >= 3 && IsContinuation(b[1]) && IsContinuation(b[2])
      && (b[0] == 0xE0 ==> b[1] >= 0xA0) && (b[0] == 0xED ==> b[1] < 0xA0)
      && ValidUtf8(b[3..])
    else if 0xF0 <= b[0] < 0xF5 then
      && |b| >= 4 && IsContinuation(b[1]) && IsContinuation(b[2]) && IsContinuation(b[3])
      && (b[0] == 0xF0 ==> b[1] >= 0x90) && (b[0] == 0xF4 ==> b[1] < 0x90)
      && ValidUtf8(b[4..])
    else false
  }

  /** A Unicode scalar value: a code point that is no surrogate. */
  predicate IsScalar(c: nat) {
    c < 0xD800 || 0xE000 <= c < 0x11_0000
  }

  /** How a scalar value is encoded (section 3 of RFC 3629): six bits in each byte but the first. */
  function Encoded(c: nat): Bytes
    requires IsScalar(c)
  {
    if c < 0x80 then [c]
    else if c < 0x800 then [Plus(0xC0, c / 64), Low(c)]
    else if c < 0x1_0000 then [Plus(0xE0, c / 64 / 64), Low(c / 64), Low(c)]
    else [Plus(0xF0, c / 64 / 64 / 64), Low(c / 64 / 64), Low(c / 64), Low(c)]
  }

  function Plus(first: nat, bits: nat): Byte
    requires first + bits < 256
  {
    first + bits
  }

  function Low(c: nat): Byte {
    Plus(0x80, c % 64)
  }

  lemma SixBits(high: nat, low: nat)
    requires low < 64
    ensures (64 * high + low) / 64 == high && (64 * high + low) % 64 == low
  {
  }

  ghost predicate AllScalar(text: seq<nat>) {
    forall i :: 0 <= i < |text| ==> IsScalar(text[i])
  }

  function EncodedAll(text: seq<nat>): Bytes
    requires AllScalar(text)
  {
    if |text| == 0 then [] else Encoded(text[0]) + EncodedAll(text[1..])
  }

  lemma ValidAfterTwo(c: nat, rest: Bytes)
    requires 0x80 <= c < 0x800
    ensures ValidUtf8(Encoded(c) + rest) <==> ValidUtf8(rest)
  {
    var b := Encoded(c) + rest;
    assert |b| == 2 + |rest| && b[0] == Plus(0xC0, c / 64) && b[1] == Low(c) && b[2..] == rest;
  }

  lemma ValidAfterThree(c: nat, rest: Bytes)
    requires IsScalar(c) && 0x800 <= c < 0x1_0000
    ensures ValidUtf8(Encoded(c) + rest) <==> ValidUtf8(rest)
  {
    var b := Encoded(c) + rest;
    assert |b| == 3 + |rest| && b[0] == Plus(0xE0, c / 64 / 64) && b[1] == Low(c / 64) && b[2] == Low(c);
    assert b[3..] == rest;
    hide Encoded;
    assert c / 64 == 64 * (c / 64 / 64) + c / 64 % 64;
  }

  lemma ValidAfterFour(c: nat, rest: Bytes)
    requires IsScalar(c) && 0x1_0000 <= c
    ensures ValidUtf8(Encoded(c) + rest) <==> ValidUtf8(rest)
  {
    var b := Encoded(c) + rest;
    assert |b| == 4 + |rest| && b[0] == Plus(0xF0, c / 64 / 64 / 64) && b[1] == Low(c / 64 / 64);
    assert b[2] == Low(c / 64) && b[3] == Low(c) && b[4..] == rest;
    hide Encoded;
    assert c / 64 / 64 == 64 * (c / 64 / 64 / 64) + c / 64 / 64 % 64;
  }

  lemma ValidAfterScalar(c: nat, rest: Bytes)
    requires IsScalar(c)
    ensures ValidUtf8(Encoded(c) + rest) <==> ValidUtf8(rest)
  {
    if c < 0x80 {
      var b := Encoded(c) + rest;
      assert |b| == 1 + |rest| && b[0] == c && b[1..] == rest;
    } else if c < 0x800 {
      ValidAfterTwo(c, rest);
    } else if c < 0x1_0000 {
      ValidAfterThree(c, rest);
    } else {
      ValidAfterFour(c, rest);
    }
    hide *;
  }

  lemma FirstOfTwo(b: Bytes) returns (c: nat)
    requires |b| >= 2 && 0xC2 <= b[0] < 0xE0 && IsContinuation(b[1])
    ensures IsScalar(c) && Encoded(c) == b[..2]
  {
    var b0: int, b1: int := b[0], b[1];
    c := 64 * (b0 - 0xC0) + (b1 - 0x80);
    SixBits(b0 - 0xC0, b1 - 0x80);
  }

  lemma FirstOfThree(b: Bytes) returns (c: nat)
    requires |b| >= 3 && 0xE0 <= b[0] < 0xF0 && IsContinuation(b[1]) && IsContinuation(b[2])
    requires (b[0] == 0xE0 ==> b[1] >= 0xA0) && (b[0] == 0xED ==> b[1] < 0xA0)
    ensures IsScalar(c) && Encoded(c) == b[..3]
  {
    var b0: int, b1: int, b2: int := b[0], b[1], b[2];
    var high := 64 * (b0 - 0xE0) + (b1 - 0x80);
    c := 64 * high + (b2 - 0x80);
    SixBits(high, b2 - 0x80);
    SixBits(b0 - 0xE0, b1 - 0x80);
  }

  lemma FirstOfFour(b: Bytes) returns (c: nat)
    requires |b| >= 4 && 0xF0 <= b[0] < 0xF5 && IsContinuation(b[1]) && IsContinuation(b[2]) && IsContinuation(b[3])
    requires (b[0] == 0xF0 ==> b[1] >= 0x90) && (b[0] == 0xF4 ==> b[1] < 0x90)
    ensures IsScalar(c) && Encoded(c) == b[..4]
  {
    var b0: int, b1: int, b2: int, b3: int := b[0], b[1], b[2], b[3];
    var higher := 64 * (b0 - 0xF0) + (b1 - 0x80);
    var high := 64 * higher + (b2 - 0x80);
    c := 64 * high + (b3 - 0x80);
    SixBits(high, b3 - 0x80);
    SixBits(higher, b2 - 0x80);
    SixBits(b0 - 0xF0, b1 - 0x80);
  }

  lemma FirstScalar(b: Bytes) returns (c: nat, rest: Bytes)
    requires |b| > 0 && ValidUtf8(b)
    ensures IsScalar(c) && b == Encoded(c) + rest && |rest| < |b| && ValidUtf8(rest)
  {
    if b[0] < 0x80 {
      c, rest := b[0], b[1..];
      assert Encoded(c) == b[..1];
    } else if b[0] < 0xE0 {
      c := FirstOfTwo(b);
      rest := b[2..];
    } else if b[0] < 0xF0 {
      c := FirstOfThree(b);
      rest := b[3..];
    } else {
      c := FirstOfFour(b);
      rest := b[4..];
    }
    hide Encoded;
  }

  /** The text that passes the check is exactly what encodes some sequence of scalar values. */
  lemma ValidUtf8Iff(b: Bytes)
    ensures ValidUtf8(b) <==> exists text :: AllScalar(text) && EncodedAll(text) == b
  {
    if ValidUtf8(b) {
      var text := Decoded(b);
      assert AllScalar(text) && EncodedAll(text) == b;
    }
    forall text | AllScalar(text) && EncodedAll(text) == b ensures ValidUtf8(b) {
      EncodedIsValid(text);
    }
  }

  lemma {:induction false} Decoded(b: Bytes) returns (text: seq<nat>)
    requires ValidUtf8(b)
    ensures AllScalar(text) && EncodedAll(text) == b
    decreases |b|
  {
    if |b| == 0 {
      text := [];
    } else {
      var c, rest := FirstScalar(b);
      var more := Decoded(rest);
      EncodedCons(c, more);
      text := [c] + more;
      hide *;
    }
  }

  lemma EncodedCons(c: nat, text: seq<nat>)
    requires IsScalar(c) && AllScalar(text)
    ensures AllScalar([c] + text) && EncodedAll([c] + text) == Encoded(c) + EncodedAll(text)
  {
    assert ([c] + text)[1..] == text;
    hide Encoded;
  }

  lemma {:induction false} EncodedIsValid(text: seq<nat>)
    requires AllScalar(text)
    ensures ValidUtf8(EncodedAll(text))
  {
    if |text| > 0 {
      EncodedIsValid(text[1..]);
      ValidAfterScalar(text[0], EncodedAll(text[1..]));
    }
  }
}
