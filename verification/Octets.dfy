/** Bytes and fixed-width integers. */
module Octets {
  type Byte = b: int | 0 <= b < 256
  type Bytes = seq<Byte>

  function Pow2(e: nat): nat { if e == 0 then 1 else 2 * Pow2(e - 1) }

  lemma Pow2Grows(d: nat, e: nat)
    requires d < e
    ensures 0 < Pow2(d) < Pow2(e)
  {
    if d > 0 { Pow2Grows(d - 1, e - 1); } else if e > 1 { Pow2Grows(d, e - 1); }
  }

  lemma Pow2OfByteMore(width: nat)
    ensures Pow2(8 * (width + 1)) == 256 * Pow2(8 * width)
  {
    var n := 8 * width;
    assert Pow2(n + 2) == 4 * Pow2(n);
    assert Pow2(n + 4) == 16 * Pow2(n);
    assert Pow2(n + 6) == 64 * Pow2(n);
  }

  lemma NoBytes()
    ensures Pow2(8 * 0) == 1
  {
  }

  lemma CommonPowers()
    ensures Pow2(8 * 4) == 0x1_0000_0000 && Pow2(8 * 8) == 0x1_0000_0000_0000_0000
  {
    hide Pow2;
    NoBytes();
    Pow2OfByteMore(0);
    Pow2OfByteMore(1);
    Pow2OfByteMore(2);
    Pow2OfByteMore(3);
    Pow2OfByteMore(4);
    Pow2OfByteMore(5);
    Pow2OfByteMore(6);
    Pow2OfByteMore(7);
  }

  /** `width` bytes of `x`, most significant first; higher bits are lost. */
  function BigEndian(x: nat, width: nat): (b: Bytes)
    ensures |b| == width
  {
    if width == 0 then [] else BigEndian(x / 256, width - 1) + [x % 256]
  }

  /** `width` bytes determine the integers that fit into them. */
  lemma {:induction false} BigEndianDiffers(x: nat, y: nat, width: nat)
    requires x < Pow2(8 * width) && y < Pow2(8 * width) && BigEndian(x, width) == BigEndian(y, width)
    ensures x == y
  {
    if width > 0 {
      Pow2OfByteMore(width - 1);
      var left, right := BigEndian(x, width), BigEndian(y, width);
      assert left[..width - 1] == BigEndian(x / 256, width - 1) && right[..width - 1] == BigEndian(y / 256, width - 1);
      assert left[width - 1] == x % 256 && right[width - 1] == y % 256;
      BigEndianDiffers(x / 256, y / 256, width - 1);
    }
  }

  function LittleEndian32(x: nat): (r: Bytes)
    ensures |r| == 4
  {
    [x % 0x100, (x / 0x100) % 0x100, (x / 0x1_0000) % 0x100, (x / 0x100_0000) % 0x100]
  }

  function Word(b0: int, b1: int, b2: int, b3: int): int {
    b0 + b1 * 0x100 + b2 * 0x1_0000 + b3 * 0x100_0000
  }

  function LittleEndianValue(b: Bytes): (x: nat)
    requires |b| == 4
    ensures x < 0x1_0000_0000
  {
    Word(b[0], b[1], b[2], b[3])
  }

  lemma WordOfBytes(x: nat)
    requires x < 0x1_0000_0000
    ensures Word(x % 0x100, (x / 0x100) % 0x100, (x / 0x1_0000) % 0x100, (x / 0x100_0000) % 0x100) == x
  {
    var q1, q2 := x / 0x100, x / 0x1_0000;
    assert q2 == q1 / 0x100;
    assert x / 0x100_0000 == q2 / 0x100;
  }

  /** Four bytes hold exactly the integers below 2^32. */
  lemma Word32RoundTrip(x: nat)
    requires x < 0x1_0000_0000
    ensures LittleEndianValue(LittleEndian32(x)) == x
  {
    WordOfBytes(x);
  }

  lemma LowByte(low: int, rest: int)
    requires 0 <= low < 0x100
    ensures (low + rest * 0x100) % 0x100 == low && (low + rest * 0x100) / 0x100 == rest
  {
  }

  lemma LittleEndianOfValue(b: Bytes)
    requires |b| == 4
    ensures LittleEndian32(LittleEndianValue(b)) == b
  {
    var b0: int, b1: int, b2: int, b3: int := b[0], b[1], b[2], b[3];
    var x, q1, q2 := Word(b0, b1, b2, b3), b1 + b2 * 0x100 + b3 * 0x1_0000, b2 + b3 * 0x100;
    LowByte(b0, q1);
    LowByte(b1, q2);
    LowByte(b2, b3);
    Quotients(x);
  }

  lemma Quotients(x: nat)
    ensures x / 0x1_0000 == x / 0x100 / 0x100 && x / 0x100_0000 == x / 0x100 / 0x100 / 0x100
  {
  }
}
