/**
 * The helpers of util/include/util/util.h: `IsAnyBitSet` on 64-bit masks
 * and `ReinterpretBytes`, which reads a scalar out of a byte vector of
 * exactly its size.
 *
 * Unsigned integers are `nat`s below 2^bits; bitwise AND is written out
 * one binary digit at a time.
 */
module Util {
  import opened Wrappers
  import opened IntTypes

  newtype byte = x: int | 0 <= x < 256

  newtype uint64 = x: int | 0 <= x < 0x1_0000_0000_0000_0000

  /** Bitwise AND of two naturals. */
  function And(x: nat, y: nat): nat
  {
    if x == 0 || y == 0 then 0
    else 2 * And(x / 2, y / 2) + (if x % 2 == 1 && y % 2 == 1 then 1 else 0)
  }

  /** Binary digit k of x is 1. */
  predicate Bit(x: nat, k: nat)
  {
    if k == 0 then x % 2 == 1 else Bit(x / 2, k - 1)
  }

  lemma {:induction false} ZeroHasNoBits(k: nat)
    ensures !Bit(0, k)
  {
    if k > 0 {
      ZeroHasNoBits(k - 1);
    }
  }

  /** Some binary digit is 1 in both x and y. */
  ghost predicate SharesBit(x: nat, y: nat)
  {
    exists k: nat :: Bit(x, k) && Bit(y, k)
  }

  /** The AND is non-zero exactly when some binary digit is 1 in both operands. */
  lemma {:induction false} AndNonZero(x: nat, y: nat)
    ensures And(x, y) != 0 <==> SharesBit(x, y)
    decreases x
  {
    if x == 0 || y == 0 {
      forall k: nat
        ensures !(Bit(x, k) && Bit(y, k))
      {
        ZeroHasNoBits(k);
      }
    } else if x % 2 == 1 && y % 2 == 1 {
      assert Bit(x, 0) && Bit(y, 0);
      assert And(x, y) == 2 * And(x / 2, y / 2) + 1;
    } else {
      AndNonZero(x / 2, y / 2);
      if And(x, y) != 0 {
        var k: nat :| Bit(x / 2, k) && Bit(y / 2, k);
        assert Bit(x, k + 1) && Bit(y, k + 1);
      }
      if SharesBit(x, y) {
        var k: nat :| Bit(x, k) && Bit(y, k);
        assert k > 0;
        assert Bit(x / 2, k - 1) && Bit(y / 2, k - 1);
      }
    }
  }

  lemma {:induction false} AndSymmetric(x: nat, y: nat)
    ensures And(x, y) == And(y, x)
    decreases x
  {
    if x != 0 && y != 0 {
      AndSymmetric(x / 2, y / 2);
    }
  }

  /**
   * `IsAnyBitSet(bitMask, bitPattern)`: `(bitMask & bitPattern) != 0`,
   * which holds exactly when some bit is set in both arguments.
   */
  predicate IsAnyBitSet(bitMask: uint64, bitPattern: uint64): (b: bool)
    ensures b <==> SharesBit(bitMask as nat, bitPattern as nat)
  {
    AndNonZero(bitMask as nat, bitPattern as nat);
    And(bitMask as nat, bitPattern as nat) != 0
  }

  /**
   * The result of `IsAnyBitSet` does not depend on the order of the
   * arguments, and no bit is set against the zero pattern.
   */
  lemma IsAnyBitSetMeaning(bitMask: uint64, bitPattern: uint64)
    ensures IsAnyBitSet(bitMask, bitPattern) == IsAnyBitSet(bitPattern, bitMask)
    ensures !IsAnyBitSet(bitMask, 0) && !IsAnyBitSet(0, bitPattern)
  {
    AndNonZero(bitMask as nat, bitPattern as nat);
    AndSymmetric(bitMask as nat, bitPattern as nat);
  }

  /** The two cases in the header's comment: masks 0b00111010, 0b11010100 and 0b11000100. */
  lemma IsAnyBitSetExamples()
    ensures IsAnyBitSet(0x3A, 0xD4)
    ensures !IsAnyBitSet(0x3A, 0xC4)
  {
  }

  /** The unsigned value of bytes in memory order, least significant byte first. */
  function LittleEndian(bytes: seq<byte>): (value: nat)
    ensures value < Pow2(8 * |bytes|)
  {
    if |bytes| == 0 then 0
    else
      var rest := LittleEndian(bytes[1..]);
      Pow2Add(8, 8 * (|bytes| - 1));
      bytes[0] as nat + 256 * rest
  }

  /** The `count` bytes that hold `value` in memory, least significant first. */
  function BytesOf(value: nat, count: nat): (bytes: seq<byte>)
    ensures |bytes| == count
  {
    if count == 0 then [] else [(value % 256) as byte] + BytesOf(value / 256, count - 1)
  }

  /** Reading bytes as a value and storing that value in as many bytes gives the bytes back. */
  lemma {:induction false} LittleEndianRoundTrip(bytes: seq<byte>)
    ensures BytesOf(LittleEndian(bytes), |bytes|) == bytes
    decreases |bytes|
  {
    if |bytes| > 0 {
      var rest := LittleEndian(bytes[1..]);
      assert (bytes[0] as nat + 256 * rest) % 256 == bytes[0] as nat;
      assert (bytes[0] as nat + 256 * rest) / 256 == rest;
      LittleEndianRoundTrip(bytes[1..]);
    }
  }

  /** Storing a value that fits in `count` bytes and reading the bytes back gives the value. */
  lemma {:induction false} BytesOfRoundTrip(value: nat, count: nat)
    requires value < Pow2(8 * count)
    ensures LittleEndian(BytesOf(value, count)) == value
    decreases count
  {
    if count > 0 {
      Pow2Add(8, 8 * (count - 1));
      assert Pow2(8) == 256;
      var bytes := BytesOf(value, count);
      assert bytes[1..] == BytesOf(value / 256, count - 1);
      BytesOfRoundTrip(value / 256, count - 1);
    } else {
      assert Pow2(0) == 1;
    }
  }

  /**
   * `ReinterpretBytes<Type>(bytes)`: asserts that there are exactly
   * `sizeof(Type)` bytes, then reads them as an unsigned scalar of that
   * size on a little-endian host. A wrong count is `None`.
   */
  function ReinterpretBytes(bytes: seq<byte>, size: nat): (r: Option<nat>)
    ensures r.Some? <==> |bytes| == size
    ensures r.Some? ==> r.value < Pow2(8 * size) && BytesOf(r.value, size) == bytes
  {
    if |bytes| == size then
      LittleEndianRoundTrip(bytes);
      Some(LittleEndian(bytes))
    else
      None
  }

  /** A value stored in exactly `size` bytes is reinterpreted as itself. */
  lemma ReinterpretStoredValue(value: nat, size: nat)
    requires value < Pow2(8 * size)
    ensures ReinterpretBytes(BytesOf(value, size), size) == Some(value)
  {
    BytesOfRoundTrip(value, size);
  }
}
