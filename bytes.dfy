/**
 * Bytes and the big-endian integer layout of java.io.DataOutputStream /
 * DataInputStream: writeInt and writeLong emit the two's-complement value
 * most significant byte first, and readInt / readLong undo that.
 */
module Bytes {
  import opened JavaLang

  newtype byte = x: int | 0 <= x < 256

  function Pow256(n: nat): (r: nat)
    ensures r >= 1
  {
    if n == 0 then 1 else 256 * Pow256(n - 1)
  }

  lemma Pow256Values()
    ensures Pow256(4) == 0x1_0000_0000
    ensures Pow256(8) == 0x1_0000_0000_0000_0000
  {
    assert Pow256(1) == 256;
    assert Pow256(2) == 0x1_0000;
    assert Pow256(3) == 0x100_0000;
    assert Pow256(4) == 0x1_0000_0000;
    assert Pow256(5) == 0x100_0000_0000;
    assert Pow256(6) == 0x1_0000_0000_0000;
    assert Pow256(7) == 0x100_0000_0000_0000;
  }

  /** The n low-order bytes of x, most significant first. */
  function BigEndian(x: nat, n: nat): (r: seq<byte>)
    ensures |r| == n
  {
    if n == 0 then [] else BigEndian(x / 256, n - 1) + [(x % 256) as byte]
  }

  /** The unsigned number a byte string spells, most significant byte first. */
  function FromBigEndian(bs: seq<byte>): (r: nat)
    ensures r < Pow256(|bs|)
  {
    if bs == [] then 0 else FromBigEndian(bs[..|bs| - 1]) * 256 + bs[|bs| - 1] as int
  }

  lemma {:induction false} FromBigEndianInverse(x: nat, n: nat)
    requires x < Pow256(n)
    ensures FromBigEndian(BigEndian(x, n)) == x
  {
    if n > 0 {
      FromBigEndianInverse(x / 256, n - 1);
      var bs := BigEndian(x, n);
      assert bs[..n - 1] == BigEndian(x / 256, n - 1);
    }
  }

  /** writeInt: the 32-bit two's-complement form of x in four bytes. */
  function IntBytes(x: Int32): (r: seq<byte>)
    ensures |r| == 4
  {
    BigEndian(x % 0x1_0000_0000, 4)
  }

  /** readInt: four bytes read back as a signed 32-bit number. */
  function IntOfBytes(bs: seq<byte>): (r: Int32)
    requires |bs| == 4
  {
    Pow256Values();
    var u := FromBigEndian(bs);
    if u >= 0x8000_0000 then u - 0x1_0000_0000 else u
  }

  /** writeLong: the 64-bit two's-complement form of x in eight bytes. */
  function LongBytes(x: Int64): (r: seq<byte>)
    ensures |r| == 8
  {
    BigEndian(x % 0x1_0000_0000_0000_0000, 8)
  }

  /** readLong: eight bytes read back as a signed 64-bit number. */
  function LongOfBytes(bs: seq<byte>): (r: Int64)
    requires |bs| == 8
  {
    Pow256Values();
    var u := FromBigEndian(bs);
    if u >= 0x8000_0000_0000_0000 then u - 0x1_0000_0000_0000_0000 else u
  }

  /** readInt undoes writeInt for every int. */
  lemma IntRoundTrip(x: Int32)
    ensures IntOfBytes(IntBytes(x)) == x
  {
    Pow256Values();
    FromBigEndianInverse(x % 0x1_0000_0000, 4);
  }

  /** readLong undoes writeLong for every long. */
  lemma LongRoundTrip(x: Int64)
    ensures LongOfBytes(LongBytes(x)) == x
  {
    Pow256Values();
    FromBigEndianInverse(x % 0x1_0000_0000_0000_0000, 8);
  }

  /** writeDouble: the eight bytes of the bit pattern, most significant first, as
      writeLong(doubleToLongBits(d)) puts them. */
  function BitsBytes(bits: DoubleBits): (r: seq<byte>)
    ensures |r| == 8
  {
    BigEndian(bits, 8)
  }

  function BitsOfBytes(bs: seq<byte>): DoubleBits
    requires |bs| == 8
  {
    Pow256Values();
    FromBigEndian(bs)
  }

  lemma BitsRoundTrip(bits: DoubleBits)
    ensures BitsOfBytes(BitsBytes(bits)) == bits
  {
    Pow256Values();
    FromBigEndianInverse(bits, 8);
  }
}
