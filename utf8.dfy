/**
 * Bytes and the UTF-8 encoding of strings (RFC 3629, section 3), which is what
 * `String.data(using: .utf8)` produces. Swift strings always encode, so the
 * force-unwraps after those calls never fail.
 */
module Utf8 {

  newtype byte = x: int | 0 <= x < 0x100

  type Bytes = seq<byte>

  /** A byte that continues a multi-byte sequence: `10xxxxxx`. */
  predicate IsContinuation(b: byte) {
    0x80 <= b < 0xC0
  }

  /** The UTF-8 encoding of one Unicode scalar value. */
  function EncodeScalar(c: char): (r: Bytes)
    ensures 1 <= |r| <= 4
    ensures |r| == 1 <==> c as int < 0x80
    ensures |r| == 1 ==> r[0] as int == c as int
    ensures |r| > 1 ==> 0xC0 <= r[0] && forall i :: 1 <= i < |r| ==> IsContinuation(r[i])
  {
    var n := c as int;
    if n < 0x80 then
      [n as byte]
    else if n < 0x800 then
      [(0xC0 + n / 0x40) as byte, (0x80 + n % 0x40) as byte]
    else if n < 0x1_0000 then
      [(0xE0 + n / 0x1000) as byte, (0x80 + n / 0x40 % 0x40) as byte, (0x80 + n % 0x40) as byte]
    else
      [(0xF0 + n / 0x4_0000) as byte, (0x80 + n / 0x1000 % 0x40) as byte,
       (0x80 + n / 0x40 % 0x40) as byte, (0x80 + n % 0x40) as byte]
  }

  /** The UTF-8 encoding of a string: the encodings of its scalars, in order. */
  function Encode(s: string): (r: Bytes)
    ensures |s| <= |r| <= 4 * |s|
    ensures s != [] ==> r != []
  {
    if s == [] then [] else EncodeScalar(s[0]) + Encode(s[1..])
  }

  predicate IsAscii(s: string) {
    forall i :: 0 <= i < |s| ==> s[i] as int < 0x80
  }

  /** Encoding is a homomorphism: the bytes of `a + b` are those of `a` then those of `b`. */
  lemma {:induction false} EncodeAppend(a: string, b: string)
    ensures Encode(a + b) == Encode(a) + Encode(b)
  {
    if a == [] {
      assert a + b == b;
    } else {
      assert (a + b)[0] == a[0];
      assert (a + b)[1..] == a[1..] + b;
      EncodeAppend(a[1..], b);
    }
  }

  /** An ASCII string encodes to one byte per character, each equal to the character's code. */
  lemma {:induction false} EncodeAscii(s: string)
    requires IsAscii(s)
    ensures |Encode(s)| == |s|
    ensures forall i :: 0 <= i < |s| ==> Encode(s)[i] as int == s[i] as int
  {
    if s != [] {
      assert IsAscii(s[1..]) by {
        forall i | 0 <= i < |s[1..]| ensures s[1..][i] as int < 0x80 {
          assert s[1..][i] == s[i + 1];
        }
      }
      EncodeAscii(s[1..]);
      var head := EncodeScalar(s[0]);
      assert |head| == 1;
      forall i | 0 <= i < |s| ensures Encode(s)[i] as int == s[i] as int {
        if i > 0 {
          assert Encode(s)[i] == Encode(s[1..])[i - 1];
          assert s[1..][i - 1] == s[i];
        }
      }
    }
  }
}
