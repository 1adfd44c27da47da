/**
 * Unsigned integer widths of the wire protocol, big-endian field
 * extraction (the be16toh/be32toh of the pretty-printer) and the
 * bitwise exclusive-or used by the frame checksum.
 *
 * Bytes are integers in 0..255 rather than bit-vectors, so that the
 * big-endian arithmetic stays linear; exclusive-or is defined bit by bit.
 */
module Bytes {

  type Byte = x: int | 0 <= x < 0x100
  type U16 = x: int | 0 <= x < 0x1_0000
  type U32 = x: int | 0 <= x < 0x1_0000_0000
  /** The value range of a C `int` on the targets of the driver. */
  type I32 = x: int | -0x8000_0000 <= x < 0x8000_0000

  datatype Option<T> = None | Some(value: T)

  /** The unsigned 16-bit value stored big-endian at s[at], s[at+1]. */
  function BE16(s: seq<Byte>, at: nat): (r: U16)
    requires at + 2 <= |s|
    ensures r / 0x100 == s[at] && r % 0x100 == s[at + 1]
  {
    (s[at] as int) * 0x100 + s[at + 1] as int
  }

  /** The unsigned 32-bit value stored big-endian at s[at..at+4]. */
  function BE32(s: seq<Byte>, at: nat): (r: U32)
    requires at + 4 <= |s|
    ensures r / 0x1_0000 == BE16(s, at) && r % 0x1_0000 == BE16(s, at + 2)
  {
    (BE16(s, at) as int) * 0x1_0000 + BE16(s, at + 2) as int
  }

  /** The two bytes that store v big-endian. */
  function ToBE16(v: U16): (r: seq<Byte>)
    ensures |r| == 2 && BE16(r, 0) == v
  {
    [v / 0x100, v % 0x100]
  }

  /** The four bytes that store v big-endian. */
  function ToBE32(v: U32): (r: seq<Byte>)
    ensures |r| == 4 && BE32(r, 0) == v
  {
    var r := ToBE16(v / 0x1_0000) + ToBE16(v % 0x1_0000);
    assert BE16(r, 0) == v / 0x1_0000 && BE16(r, 2) == v % 0x1_0000;
    r
  }

  /** Reading a 16-bit field and writing it back reproduces its bytes. */
  lemma BE16Bytes(s: seq<Byte>, at: nat)
    requires at + 2 <= |s|
    ensures ToBE16(BE16(s, at)) == s[at..at + 2]
  {
  }

  /** Reading a 32-bit field and writing it back reproduces its bytes. */
  lemma BE32Bytes(s: seq<Byte>, at: nat)
    requires at + 4 <= |s|
    ensures ToBE32(BE32(s, at)) == s[at..at + 4]
  {
    var v := BE32(s, at);
    BE16Bytes(s, at);
    BE16Bytes(s, at + 2);
    assert ToBE32(v) == ToBE16(BE16(s, at)) + ToBE16(BE16(s, at + 2));
  }

  function Pow2(n: nat): (r: nat)
    ensures r >= 1
  {
    if n == 0 then 1 else 2 * Pow2(n - 1)
  }

  /** Bitwise exclusive-or of two naturals, lowest bit first. */
  function Xor(a: nat, b: nat): nat
  {
    if a == 0 && b == 0 then 0
    else 2 * Xor(a / 2, b / 2) + (if a % 2 == b % 2 then 0 else 1)
  }

  /** The two facts every other exclusive-or lemma is built on. */
  lemma XorBits(a: nat, b: nat)
    ensures Xor(a, b) % 2 == (if a % 2 == b % 2 then 0 else 1)
    ensures Xor(a, b) / 2 == Xor(a / 2, b / 2)
  {
  }

  lemma {:induction false} XorZero(a: nat)
    ensures Xor(a, 0) == a && Xor(0, a) == a
    decreases a
  {
    if a != 0 {
      XorZero(a / 2);
    }
  }

  lemma {:induction false} XorSelf(a: nat)
    ensures Xor(a, a) == 0
    decreases a
  {
    if a != 0 {
      XorSelf(a / 2);
    }
  }

  lemma {:induction false} XorComm(a: nat, b: nat)
    ensures Xor(a, b) == Xor(b, a)
    decreases a + b
  {
    if a != 0 || b != 0 {
      XorComm(a / 2, b / 2);
    }
  }

  /** A natural is determined by its lowest bit and the rest. */
  lemma SameBits(x: nat, y: nat)
    requires x / 2 == y / 2 && x % 2 == y % 2
    ensures x == y
  {
  }

  lemma {:induction false} XorAssoc(a: nat, b: nat, c: nat)
    ensures Xor(a, Xor(b, c)) == Xor(Xor(a, b), c)
    decreases a + b + c
  {
    if a != 0 || b != 0 || c != 0 {
      var bc, ab := Xor(b, c), Xor(a, b);
      XorBits(b, c);
      XorBits(a, b);
      XorBits(a, bc);
      XorBits(ab, c);
      XorAssoc(a / 2, b / 2, c / 2);
      assert Xor(a, bc) / 2 == Xor(ab, c) / 2;
      assert Xor(a, bc) % 2 == Xor(ab, c) % 2;
      SameBits(Xor(a, bc), Xor(ab, c));
    }
  }

  /** Exclusive-or never sets a bit above the highest bit of its operands. */
  lemma {:induction false} XorBelow(a: nat, b: nat, n: nat)
    requires a < Pow2(n) && b < Pow2(n)
    ensures Xor(a, b) < Pow2(n)
    decreases n
  {
    if n > 0 && (a != 0 || b != 0) {
      XorBelow(a / 2, b / 2, n - 1);
    }
  }

  /** Exclusive-or of two bytes is a byte. */
  function XorByte(a: Byte, b: Byte): (r: Byte)
    ensures r == Xor(a, b)
  {
    assert Pow2(8) == 0x100;
    XorBelow(a, b, 8);
    Xor(a, b)
  }
}
