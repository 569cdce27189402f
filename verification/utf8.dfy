/**
 UTF-8 as section 3 of RFC 3629 defines it: the encoding of one scalar, and a scanner that reads
 the first scalar of a byte sequence and tells a truncated sequence from a malformed one.
 */
module Utf8 {
  type byte = n: int | 0 <= n < 256

  function EncodeChar(c: char): (bytes: seq<byte>)
    ensures 1 <= |bytes| <= 4
  {
    var n := c as int;
    if n < 0x80 then [n]
    else if n < 0x800 then [0xC0 + n / 64, 0x80 + n % 64]
    else if n < 0x1_0000 then [0xE0 + n / 4096, 0x80 + n / 64 % 64, 0x80 + n % 64]
    else [0xF0 + n / 262144, 0x80 + n / 4096 % 64, 0x80 + n / 64 % 64, 0x80 + n % 64]
  }

  function Encode(text: string): seq<byte> {
    if text == [] then [] else EncodeChar(text[0]) + Encode(text[1..])
  }

  /**
   The first scalar of a byte sequence. `Incomplete` means the sequence ends inside a scalar;
   `Invalid` reports how many bytes a lossy decoder replaces.
   */
  datatype Scan = Scalar(c: char, len: nat) | Incomplete | Invalid(len: nat)

  predicate Continuation(b: byte) { 0x80 <= b < 0xC0 }

  /** Which second bytes may follow a given first byte: no overlong forms, surrogates or values past U+10FFFF. */
  predicate SecondByte(first: byte, b: byte) {
    && Continuation(b)
    && (first == 0xE0 ==> 0xA0 <= b)
    && (first == 0xED ==> b < 0xA0)
    && (first == 0xF0 ==> 0x90 <= b)
    && (first == 0xF4 ==> b < 0x90)
  }

  function Two(a: int, b: int): int { (a - 0xC0) * 64 + (b - 0x80) }

  function Three(a: int, b: int, c: int): int { (a - 0xE0) * 4096 + (b - 0x80) * 64 + (c - 0x80) }

  function Four(a: int, b: int, c: int, d: int): int {
    (a - 0xF0) * 262144 + (b - 0x80) * 4096 + (c - 0x80) * 64 + (d - 0x80)
  }

  function First(b: seq<byte>): (scan: Scan)
    requires b != []
    ensures scan.Scalar? ==> 1 <= scan.len <= |b| && scan.len <= 4
    ensures scan.Invalid? ==> 1 <= scan.len <= |b|
  {
    if b[0] < 0x80 then Scalar(b[0] as char, 1)
    else if b[0] < 0xC2 || b[0] > 0xF4 then Invalid(1)
    else if |b| == 1 then Incomplete
    else if !SecondByte(b[0], b[1]) then Invalid(1)
    else if b[0] < 0xE0 then Scalar(Two(b[0], b[1]) as char, 2)
    else if |b| == 2 then Incomplete
    else if !Continuation(b[2]) then Invalid(2)
    else if b[0] < 0xF0 then Scalar(Three(b[0], b[1], b[2]) as char, 3)
    else if |b| == 3 then Incomplete
    else if !Continuation(b[3]) then Invalid(3)
    else Scalar(Four(b[0], b[1], b[2], b[3]) as char, 4)
  }

  lemma Digits(n: nat)
    ensures n == n / 64 * 64 + n % 64
    ensures n == n / 4096 * 4096 + n / 64 % 64 * 64 + n % 64
    ensures n == n / 262144 * 262144 + n / 4096 % 64 * 4096 + n / 64 % 64 * 64 + n % 64
  {
    assert n / 4096 == n / 64 / 64;
    assert n / 262144 == n / 4096 / 64;
  }

  /** Reading back an encoded scalar needs none of the bytes after it. */
  lemma FirstOfEncoded(c: char, rest: seq<byte>)
    ensures First(EncodeChar(c) + rest) == Scalar(c, |EncodeChar(c)|)
  {
    Digits(c as int);
    var e := EncodeChar(c);
    var b := e + rest;
    assert b[0] == e[0] && (|e| > 1 ==> b[1] == e[1]) && (|e| > 2 ==> b[2] == e[2]) && (|e| > 3 ==> b[3] == e[3]);
  }

  /** A scalar cut short reads as incomplete. */
  lemma FirstOfPartial(c: char, n: nat)
    requires 0 < n < |EncodeChar(c)|
    ensures First(EncodeChar(c)[..n]) == Incomplete
  {
    Digits(c as int);
  }

  /** What `String::from_utf8_lossy` yields: U+FFFD for every malformed or truncated part. */
  function Lossy(b: seq<byte>): string {
    if b == [] then ""
    else
      match First(b)
      case Scalar(c, len) => [c] + Lossy(b[len..])
      case Invalid(len) => ['\U{FFFD}'] + Lossy(b[len..])
      case Incomplete => ['\U{FFFD}']
  }

  lemma {:induction false} LossyOfEncoded(text: string)
    ensures Lossy(Encode(text)) == text
  {
    if text != [] {
      FirstOfEncoded(text[0], Encode(text[1..]));
      assert Encode(text)[|EncodeChar(text[0])|..] == Encode(text[1..]);
      LossyOfEncoded(text[1..]);
    }
  }

  lemma EncodeInjective(a: string, b: string)
    requires Encode(a) == Encode(b)
    ensures a == b
  {
    LossyOfEncoded(a);
    LossyOfEncoded(b);
  }

  lemma {:induction false} EncodeConcat(a: string, b: string)
    ensures Encode(a + b) == Encode(a) + Encode(b)
  {
    if a == [] {
      assert a + b == b;
    } else {
      assert (a + b)[1..] == a[1..] + b;
      EncodeConcat(a[1..], b);
    }
  }

  /** The bytes are the encoding of some text. */
  ghost predicate IsUtf8(bytes: seq<byte>) { exists text: string :: Encode(text) == bytes }
}
