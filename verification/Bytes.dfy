/** Bytes: exclusive or, and big-endian numbers. */
module Bytes {
  import opened Values

  /** Exclusive or of the lowest `bits` bits. */
  function XorBits(a: nat, b: nat, bits: nat): nat {
    if bits == 0 then 0 else (a % 2 + b % 2) % 2 + 2 * XorBits(a / 2, b / 2, bits - 1)
  }

  function Power2(bits: nat): nat {
    if bits == 0 then 1 else 2 * Power2(bits - 1)
  }

  lemma {:induction false} XorBound(a: nat, b: nat, bits: nat)
    ensures XorBits(a, b, bits) < Power2(bits)
    decreases bits
  {
    if bits > 0 { XorBound(a / 2, b / 2, bits - 1); }
  }

  lemma {:induction false} XorBitsTwice(a: nat, b: nat, bits: nat)
    requires a < Power2(bits)
    ensures XorBits(XorBits(a, b, bits), b, bits) == a
    decreases bits
  {
    if bits > 0 {
      Half(a, Power2(bits - 1));
      XorBitsTwice(a / 2, b / 2, bits - 1);
      LowBit((a % 2 + b % 2) % 2, XorBits(a / 2, b / 2, bits - 1));
      OddTwice(a % 2, b % 2);
    }
  }

  lemma Half(a: nat, p: nat)
    requires a < 2 * p
    ensures a / 2 < p && a == a % 2 + 2 * (a / 2)
  {}

  lemma LowBit(low: nat, high: nat)
    requires low < 2
    ensures (low + 2 * high) % 2 == low && (low + 2 * high) / 2 == high
  {}

  lemma OddTwice(a: nat, b: nat)
    requires a < 2 && b < 2
    ensures ((a + b) % 2 + b) % 2 == a
  {}

  lemma EightBits()
    ensures Power2(8) == 256
  {
    assert Power2(4) == 16;
  }

  function Xor(a: u8, b: u8): u8 {
    XorBound(a, b, 8);
    EightBits();
    XorBits(a, b, 8)
  }

  /** Bit number `i`, from the lowest. */
  function Bit(n: nat, i: nat): nat {
    if i == 0 then n % 2 else Bit(n / 2, i - 1)
  }

  lemma {:induction false} XorBitsAt(a: nat, b: nat, bits: nat, i: nat)
    requires i < bits
    ensures Bit(XorBits(a, b, bits), i) == 1 <==> Bit(a, i) != Bit(b, i)
    decreases bits
  {
    var low, high := (a % 2 + b % 2) % 2, XorBits(a / 2, b / 2, bits - 1);
    LowBit(low, high);
    if i > 0 { XorBitsAt(a / 2, b / 2, bits - 1, i - 1); }
  }

  /** A bit is set in the exclusive or exactly if it is set in one of the two. */
  lemma XorMeans(a: u8, b: u8, i: nat)
    requires i < 8
    ensures Bit(Xor(a, b), i) == 1 <==> Bit(a, i) != Bit(b, i)
  {
    XorBitsAt(a, b, 8, i);
  }

  lemma XorTwice(a: u8, b: u8)
    ensures Xor(Xor(a, b), b) == a
  {
    EightBits();
    XorBitsTwice(a, b, 8);
  }

  /** `n` in `width` bytes, most significant first, higher bits cut off. */
  function BigEndian(n: nat, width: nat): (b: seq<u8>)
    ensures |b| == width
  {
    if width == 0 then [] else BigEndian(n / 256, width - 1) + [n % 256]
  }

  function FromBigEndian(b: seq<u8>): nat {
    if b == [] then 0 else FromBigEndian(b[..|b| - 1]) * 256 + b[|b| - 1]
  }

  function Power256(width: nat): nat {
    if width == 0 then 1 else 256 * Power256(width - 1)
  }

  lemma Quotient(n: nat, p: nat)
    requires n < 256 * p
    ensures n / 256 < p
  {}

  lemma LowByte(high: seq<u8>, low: u8)
    ensures FromBigEndian(high + [low]) == FromBigEndian(high) * 256 + low
  {
    assert (high + [low])[..|high|] == high;
  }

  lemma {:induction false} BigEndianReads(n: nat, width: nat)
    requires n < Power256(width)
    ensures FromBigEndian(BigEndian(n, width)) == n
  {
    if width > 0 {
      var high := BigEndian(n / 256, width - 1);
      Quotient(n, Power256(width - 1));
      BigEndianReads(n / 256, width - 1);
      LowByte(high, n % 256);
    }
  }
}
