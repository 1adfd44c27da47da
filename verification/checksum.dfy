/**
 * The frame checksum of the serial layer.
 *
 * `XorCheckout` is the routine as the driver has it: its loop counts the
 * length down and never touches the accumulator, so it returns 0 for every
 * buffer. `XorFold` and `XorChecksum` are the exclusive-or fold that the
 * routine's name and the frame's single checksum byte call for.
 */
module Checksum {
  import opened Bytes

  /** The checksum routine as written: the buffer is never read and the result is always 0. */
  method XorCheckout(buf: array<Byte>, len: nat) returns (cs: Byte, ghost rounds: nat)
    ensures cs == 0
    ensures rounds == len
  {
    cs := 0;
    var n := len;
    rounds := 0;
    while n > 0
      invariant rounds + n == len
    {
      n := n - 1;
      rounds := rounds + 1;
    }
  }

  /** The exclusive-or of all bytes of s, taken from the first byte to the last. */
  function XorFold(s: seq<Byte>): (r: Byte)
    ensures |s| == 1 ==> r == s[0]
  {
    if s == [] then 0
    else
      XorZero(s[|s| - 1]);
      XorByte(XorFold(s[..|s| - 1]), s[|s| - 1])
  }

  /** The checksum routine as intended: fold the first `len` bytes of the buffer. */
  method XorChecksum(buf: array<Byte>, len: nat) returns (cs: Byte)
    requires len <= buf.Length
    ensures cs == XorFold(buf[..len])
  {
    cs := 0;
    var i := 0;
    while i < len
      invariant 0 <= i <= len
      invariant cs == XorFold(buf[..i])
    {
      assert buf[..i + 1][..i] == buf[..i];
      cs := XorByte(cs, buf[i]);
      i := i + 1;
    }
  }

  /** The fold of a concatenation is the exclusive-or of the folds. */
  lemma {:induction false} XorFoldAppend(a: seq<Byte>, b: seq<Byte>)
    ensures XorFold(a + b) == XorByte(XorFold(a), XorFold(b))
    decreases |b|
  {
    if b == [] {
      assert a + b == a;
      XorZero(XorFold(a));
    } else {
      var b' := b[..|b| - 1];
      var x := b[|b| - 1];
      assert (a + b)[..|a + b| - 1] == a + b';
      XorFoldAppend(a, b');
      assert b[..|b| - 1] == b';
      XorAssoc(XorFold(a), XorFold(b'), x);
    }
  }

  /** Appending the checksum of a sequence makes the whole sequence fold to 0. */
  lemma XorFoldSelfCancel(s: seq<Byte>)
    ensures XorFold(s + [XorFold(s)]) == 0
  {
    assert (s + [XorFold(s)])[..|s|] == s;
    XorSelf(XorFold(s));
  }

  /**
   * The value the routine as written returns, 0, is not the checksum of the
   * one-byte buffer [1], and appending it does not make that frame body fold to 0.
   */
  lemma LiteralChecksumBreaksLaw()
    ensures XorFold([1]) == 1 != 0
    ensures XorFold([1] + [0]) != 0
  {
    XorFoldAppend([1], [0]);
    XorZero(1);
  }

  /** For an empty buffer the routine as written and the intended fold agree. */
  lemma EmptyBufferAgrees()
    ensures XorFold([]) == 0
  {
  }
}
