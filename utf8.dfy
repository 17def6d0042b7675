/**
 * UTF-8 as defined in section 3 of RFC 3629, reduced to what the segment
 * writer needs: how many bytes `Buffer.byteLength` counts for a string.
 * A Dafny `char` is a Unicode scalar value, so every character has an
 * encoding of one to four octets.
 */
module Utf8 {

  type Byte = x: int | 0 <= x < 256

  /** The number of octets of a character, by the code-point ranges of the RFC's table. */
  function CharWidth(c: char): (w: nat)
    ensures 1 <= w <= 4
  {
    var v := c as int;
    if v < 0x80 then 1
    else if v < 0x800 then 2
    else if v < 0x10000 then 3
    else 4
  }

  /** The octets of one character, following the bit layout of the RFC's table. */
  function EncodeChar(c: char): seq<Byte> {
    var v := c as int;
    if v < 0x80 then [v]
    else if v < 0x800 then [0xC0 + v / 0x40, 0x80 + v % 0x40]
    else if v < 0x10000 then [0xE0 + v / 0x1000, 0x80 + (v / 0x40) % 0x40, 0x80 + v % 0x40]
    else [0xF0 + v / 0x40000, 0x80 + (v / 0x1000) % 0x40, 0x80 + (v / 0x40) % 0x40, 0x80 + v % 0x40]
  }

  function Encode(s: string): seq<Byte> {
    if s == [] then [] else EncodeChar(s[0]) + Encode(s[1..])
  }

  /** `Buffer.byteLength(s)`: the sum of the widths of the characters, without encoding them. */
  function ByteLength(s: string): nat {
    if s == [] then 0 else CharWidth(s[0]) + ByteLength(s[1..])
  }

  predicate IsContinuation(b: Byte) {
    0x80 <= b < 0xC0
  }

  /** The lead octet announces the width, and every later octet is a continuation octet. */
  lemma EncodeCharWellFormed(c: char)
    ensures |EncodeChar(c)| == CharWidth(c)
    ensures CharWidth(c) == 1 <==> EncodeChar(c)[0] < 0x80
    ensures CharWidth(c) == 2 <==> 0xC0 <= EncodeChar(c)[0] < 0xE0
    ensures CharWidth(c) == 3 <==> 0xE0 <= EncodeChar(c)[0] < 0xF0
    ensures CharWidth(c) == 4 <==> 0xF0 <= EncodeChar(c)[0] < 0xF8
    ensures forall i :: 1 <= i < |EncodeChar(c)| ==> IsContinuation(EncodeChar(c)[i])
  {
  }

  /** The counted length is the length of the actual encoding. */
  lemma {:induction false} ByteLengthIsEncodedLength(s: string)
    ensures ByteLength(s) == |Encode(s)|
  {
    if s != [] {
      EncodeCharWellFormed(s[0]);
      ByteLengthIsEncodedLength(s[1..]);
    }
  }

  /** A string takes at least one and at most four octets per character. */
  lemma {:induction false} ByteLengthBounds(s: string)
    ensures |s| <= ByteLength(s) <= 4 * |s|
  {
    if s != [] {
      ByteLengthBounds(s[1..]);
    }
  }

  /** ASCII text takes exactly one octet per character. */
  lemma {:induction false} ByteLengthAscii(s: string)
    requires forall i :: 0 <= i < |s| ==> s[i] as int < 0x80
    ensures ByteLength(s) == |s|
  {
    if s != [] {
      ByteLengthAscii(s[1..]);
    }
  }

  lemma {:induction false} ByteLengthAppend(a: string, b: string)
    ensures ByteLength(a + b) == ByteLength(a) + ByteLength(b)
  {
    if a == [] {
      assert a + b == b;
    } else {
      assert (a + b)[1..] == a[1..] + b;
      ByteLengthAppend(a[1..], b);
    }
  }
}
