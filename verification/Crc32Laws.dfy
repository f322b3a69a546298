/** What the two CRCs promise about messages: residue, affinity, and the errors they always catch. */
module Crc32Laws {
  import opened Stripes
  import opened BitDivision
  import opened Crc32Words
  import opened Crc32

  predicate Known(poly: bv32) {
    poly == CRC32_POLY || poly == CRC32C_POLY
  }

  /** Both polynomials have a constant term, so a step can be undone. */
  lemma ConstantTerm(poly: bv32)
    requires Known(poly)
    ensures Register(poly)[31]
  {
    RegisterBytes(poly);
    TopByte(CRC32_POLY);
    TopByte(CRC32C_POLY);
    assert Register(poly)[31] == BitsFrom(poly, 0x100_0000, 8)[7];
  }

  lemma TopByte(poly: bv32)
    ensures BitsFrom(poly, 0x100_0000, 8)[7] == (poly & 0x8000_0000 != 0)
  {
    FromSplit(poly, 0x100_0000, 7, 1);
    assert Up(0x100_0000, 7) == 0x8000_0000;
    assert BitsFrom(poly, 0x8000_0000, 1) == [poly & 0x8000_0000 != 0];
  }

  /** n coefficients of a polynomial written with its highest bit first, from the one m selects downwards. */
  function HighFrom(c: bv32, m: bv32, n: nat): (r: Bits)
    ensures |r| == n
    decreases n, c
  {
    if n == 0 then [] else [c & m != 0] + HighFrom(c, m >> 1, n - 1)
  }

  lemma {:induction false} HighSplit(c: bv32, m: bv32, k: nat, n: nat, m2: bv32)
    requires Down(m, k) == m2
    ensures HighFrom(c, m, k + n) == HighFrom(c, m, k) + HighFrom(c, m2, n)
    decreases k
  {
    if k > 0 {
      HighSplit(c, m >> 1, k - 1, n, m2);
    }
  }

  function Down(m: bv32, n: nat): bv32
    decreases n
  {
    if n == 0 then m else Down(m >> 1, n - 1)
  }

  lemma HighBytes(c: bv32)
    ensures HighFrom(c, 0x8000_0000, 32) == HighFrom(c, 0x8000_0000, 8) + HighFrom(c, 0x80_0000, 24)
    ensures HighFrom(c, 0x80_0000, 24) == HighFrom(c, 0x80_0000, 8) + HighFrom(c, 0x8000, 16)
    ensures HighFrom(c, 0x8000, 16) == HighFrom(c, 0x8000, 8) + HighFrom(c, 0x80, 8)
  {
    HighSplit(c, 0x8000_0000, 8, 24, 0x80_0000);
    HighSplit(c, 0x80_0000, 8, 16, 0x8000);
    HighSplit(c, 0x8000, 8, 8, 0x80);
  }

  lemma Crc32Byte0()
    ensures BitsFrom(0xEDB88320, 0x1, 8) == HighFrom(0x04C11DB7, 0x80000000, 8)
  {
  }

  lemma Crc32Byte1()
    ensures BitsFrom(0xEDB88320, 0x100, 8) == HighFrom(0x04C11DB7, 0x800000, 8)
  {
  }

  lemma Crc32Byte2()
    ensures BitsFrom(0xEDB88320, 0x10000, 8) == HighFrom(0x04C11DB7, 0x8000, 8)
  {
  }

  lemma Crc32Byte3()
    ensures BitsFrom(0xEDB88320, 0x1000000, 8) == HighFrom(0x04C11DB7, 0x80, 8)
  {
  }

  lemma Crc32cByte0()
    ensures BitsFrom(0x82F63B78, 0x1, 8) == HighFrom(0x1EDC6F41, 0x80000000, 8)
  {
  }

  lemma Crc32cByte1()
    ensures BitsFrom(0x82F63B78, 0x100, 8) == HighFrom(0x1EDC6F41, 0x800000, 8)
  {
  }

  lemma Crc32cByte2()
    ensures BitsFrom(0x82F63B78, 0x10000, 8) == HighFrom(0x1EDC6F41, 0x8000, 8)
  {
  }

  lemma Crc32cByte3()
    ensures BitsFrom(0x82F63B78, 0x1000000, 8) == HighFrom(0x1EDC6F41, 0x80, 8)
  {
  }

  /** The polynomials divided by are 0x04c11db7 and 0x1edc6f41. */
  lemma PolynomialsRight()
    ensures Register(CRC32_POLY) == HighFrom(0x04C11DB7, 0x8000_0000, 32)
    ensures Register(CRC32C_POLY) == HighFrom(0x1EDC6F41, 0x8000_0000, 32)
  {
    RegisterBytes(0xEDB88320);
    HighBytes(0x04C11DB7);
    Crc32Byte0(); Crc32Byte1(); Crc32Byte2(); Crc32Byte3();
    RegisterBytes(0x82F63B78);
    HighBytes(0x1EDC6F41);
    Crc32cByte0(); Crc32cByte1(); Crc32cByte2(); Crc32cByte3();
  }

  // ----- a CRC and the message it belongs to

  function LowByte(w: bv32): bv8 {
    (w & 0xFF) as bv8
  }

  /** n bytes of w, little end first. */
  function BytesLE(w: bv32, n: nat): (r: Bytes)
    ensures |r| == n
    decreases n, w
  {
    if n == 0 then [] else [LowByte(w)] + BytesLE(w >> 8, n - 1)
  }

  lemma LowByteBack(w: bv32)
    ensures LowByte(w) as bv32 == w & 0xFF
  {
  }

  lemma LowByteBits(w: bv32)
    ensures ByteBits(LowByte(w)) == BitsOf(w, 8)
  {
    LowByteBack(w);
    RegisterLow8(w);
    ByteRegister(LowByte(w));
    assert Pad(BitsOf(w, 8), 32)[..8] == BitsOf(w, 8);
    assert Pad(ByteBits(LowByte(w)), 32)[..8] == ByteBits(LowByte(w));
  }

  lemma NextByteBits(w: bv32, n: nat)
    ensures BitsOf(w, 8 + n) == BitsOf(w, 8) + BitsOf(w >> 8, n)
  {
    Up8(1);
    FromSplit(w, 1, 8, n);
    FromShift8(w, 1, n);
  }

  lemma {:induction false} BytesLEBits(w: bv32, n: nat)
    ensures MessageBits(BytesLE(w, n)) == BitsOf(w, 8 * n)
    decreases n
  {
    if n > 0 {
      LowByteBits(w);
      NextByteBits(w, 8 * (n - 1));
      BytesLEBits(w >> 8, n - 1);
      assert BytesLE(w, n)[1..] == BytesLE(w >> 8, n - 1);
    }
  }

  function ResidueOf(poly: bv32): bv32 {
    if poly == CRC32_POLY then 0xDEBB20E3 else 0xB798B438
  }

  lemma ResidueCrc32()
    ensures StepByte(0xFFFFFFFF, CRC32_POLY) == 0x2DFD1072 && StepByte(0x2DFD1072, CRC32_POLY) == 0xBE26ED00
    ensures StepByte(0xBE26ED00, CRC32_POLY) == 0x00BE26ED && StepByte(0x00BE26ED, CRC32_POLY) == 0xDEBB20E3
  {
  }

  lemma ResidueCrc32c()
    ensures StepByte(0xFFFFFFFF, CRC32C_POLY) == 0xAD82ACAE && StepByte(0xAD82ACAE, CRC32C_POLY) == 0x0E9E882D
    ensures StepByte(0x0E9E882D, CRC32C_POLY) == 0x9F9B5C85 && StepByte(0x9F9B5C85, CRC32C_POLY) == 0xB798B438
  {
  }

  lemma FourBytes(poly: bv32, c0: bv32, c1: bv32, c2: bv32, c3: bv32, c4: bv32)
    requires StepByte(c0, poly) == c1 && StepByte(c1, poly) == c2 && StepByte(c2, poly) == c3 && StepByte(c3, poly) == c4
    ensures Feed(Register(poly), Register(c0), Zeros(32)) == Register(c4)
  {
    var p := Register(poly);
    StepByteAlike(c0, poly);
    StepByteAlike(c1, poly);
    StepByteAlike(c2, poly);
    StepByteAlike(c3, poly);
    FeedAppend(p, Register(c0), Zeros(8), Zeros(24));
    FeedAppend(p, Register(c1), Zeros(8), Zeros(16));
    FeedAppend(p, Register(c2), Zeros(8), Zeros(8));
    assert Zeros(8) + Zeros(24) == Zeros(32);
    assert Zeros(8) + Zeros(16) == Zeros(24);
    assert Zeros(8) + Zeros(8) == Zeros(16);
  }

  lemma ResidueSteps(poly: bv32)
    requires Known(poly)
    ensures Feed(Register(poly), Ones(32), Zeros(32)) == Register(ResidueOf(poly))
  {
    AllOnes();
    if poly == CRC32_POLY {
      ResidueCrc32();
      FourBytes(CRC32_POLY, 0xFFFFFFFF, 0x2DFD1072, 0xBE26ED00, 0x00BE26ED, 0xDEBB20E3);
    } else {
      ResidueCrc32c();
      FourBytes(CRC32C_POLY, 0xFFFFFFFF, 0xAD82ACAE, 0x0E9E882D, 0x9F9B5C85, 0xB798B438);
    }
  }

  /** A message followed by a 32-bit word leaves the documented residue exactly when the word is the message's CRC. */
  lemma ResidueExact(poly: bv32, data: Bytes, w: bv32)
    requires Known(poly)
    ensures After(poly, data + BytesLE(w, 4)) == Register(ResidueOf(poly)) <==> Register(w) == Checksum(poly, data)
  {
    var p, r := Register(poly), After(poly, data);
    MessageAppend(data, BytesLE(w, 4));
    BytesLEBits(w, 4);
    FeedAppend(p, Ones(32), MessageBits(data), Register(w));
    ConstantTerm(poly);
    Residue(p, r, Register(w));
    AfterIsChecksum(poly, data);
    ResidueSteps(poly);
  }

  // ----- affinity

  function XorBytes(a: Bytes, b: Bytes): (r: Bytes)
    requires |a| == |b|
    ensures |r| == |a|
  {
    seq(|a|, i requires 0 <= i < |a| => a[i] ^ b[i])
  }

  lemma WidenXor(a: bv8, b: bv8)
    ensures (a ^ b) as bv32 == (a as bv32) ^ (b as bv32)
  {
  }

  lemma ByteXor(a: bv8, b: bv8)
    ensures ByteBits(a ^ b) == Xor(ByteBits(a), ByteBits(b))
  {
    WidenXor(a, b);
    FromXor(a as bv32, b as bv32, 1, 8);
  }

  lemma XorJoin(a: Bits, b: Bits, c: Bits, d: Bits)
    requires |a| == |c| && |b| == |d|
    ensures Xor(a + b, c + d) == Xor(a, c) + Xor(b, d)
  {
  }

  lemma {:induction false} MessageXor(a: Bytes, b: Bytes)
    requires |a| == |b|
    ensures MessageBits(XorBytes(a, b)) == Xor(MessageBits(a), MessageBits(b))
    decreases |a|
  {
    if a != [] {
      ByteXor(a[0], b[0]);
      MessageXor(a[1..], b[1..]);
      assert XorBytes(a, b)[1..] == XorBytes(a[1..], b[1..]);
      XorJoin(ByteBits(a[0]), MessageBits(a[1..]), ByteBits(b[0]), MessageBits(b[1..]));
    }
  }

  lemma AfterXor3(poly: bv32, a: Bytes, b: Bytes, c: Bytes)
    requires |a| == |b| == |c|
    ensures After(poly, XorBytes(XorBytes(a, b), c)) == Xor(Xor(After(poly, a), After(poly, b)), After(poly, c))
  {
    var p, ones := Register(poly), Ones(32);
    var ab := XorBytes(a, b);
    MessageXor(a, b);
    MessageXor(ab, c);
    FeedLinear(p, ones, ones, MessageBits(a), MessageBits(b));
    FeedLinear(p, Xor(ones, ones), ones, MessageBits(ab), MessageBits(c));
    assert Xor(Xor(ones, ones), ones) == ones;
  }

  lemma NotXor3(a: Bits, b: Bits, c: Bits)
    requires |a| == |b| == |c|
    ensures Not(Xor(Xor(a, b), c)) == Xor(Xor(Not(a), Not(b)), Not(c))
  {
  }

  /** Three messages of one length: the CRC of their sum is the sum of their CRCs. */
  lemma Affine(poly: bv32, a: Bytes, b: Bytes, c: Bytes)
    requires |a| == |b| == |c|
    ensures Checksum(poly, XorBytes(XorBytes(a, b), c)) == Xor(Xor(Checksum(poly, a), Checksum(poly, b)), Checksum(poly, c))
  {
    AfterXor3(poly, a, b, c);
    AfterIsChecksum(poly, XorBytes(XorBytes(a, b), c));
    AfterIsChecksum(poly, a);
    AfterIsChecksum(poly, b);
    AfterIsChecksum(poly, c);
    NotXor3(After(poly, a), After(poly, b), After(poly, c));
  }

  // ----- bursts

  /**
   * Messages that differ only inside a window of at most 32 bits, which may start and end inside
   * bytes, have different CRCs.
   */
  lemma BurstDetected(poly: bv32, x: Bytes, y: Bytes, front: Bits, u: Bits, v: Bits, back: Bits)
    requires Known(poly)
    requires MessageBits(x) == front + u + back && MessageBits(y) == front + v + back
    requires |u| == |v| <= 32 && u != v
    ensures Checksum(poly, x) != Checksum(poly, y)
  {
    ConstantTerm(poly);
    WindowsDiffer(Register(poly), front, u, v, back);
    ChecksumsDiffer(poly, x, y);
  }

  lemma WindowsDiffer(p: Bits, front: Bits, u: Bits, v: Bits, back: Bits)
    requires |p| == 32 && p[31] && |u| == |v| <= 32 && u != v
    ensures Feed(p, Ones(32), front + u + back) != Feed(p, Ones(32), front + v + back)
  {
    var r := Feed(p, Ones(32), front);
    AfterWindow(p, front, u, back);
    AfterWindow(p, front, v, back);
    WindowInjective(p, r, u, v);
    if Feed(p, Feed(p, r, u), back) == Feed(p, Feed(p, r, v), back) {
      FeedInjective(p, Feed(p, r, u), Feed(p, r, v), back);
    }
  }

  lemma ChecksumsDiffer(poly: bv32, x: Bytes, y: Bytes)
    requires After(poly, x) != After(poly, y)
    ensures Checksum(poly, x) != Checksum(poly, y)
  {
    AfterIsChecksum(poly, x);
    AfterIsChecksum(poly, y);
    if Checksum(poly, x) == Checksum(poly, y) {
      NotInjective(After(poly, x), After(poly, y));
    }
  }

  lemma AfterWindow(p: Bits, front: Bits, u: Bits, back: Bits)
    requires |p| == 32
    ensures Feed(p, Ones(32), front + u + back) == Feed(p, Feed(p, Feed(p, Ones(32), front), u), back)
  {
    FeedAppend(p, Ones(32), front + u, back);
    FeedAppend(p, Ones(32), front, u);
  }

  lemma NotInjective(a: Bits, b: Bits)
    requires |a| == |b| && Not(a) == Not(b)
    ensures a == b
  {
    forall i | 0 <= i < |a| ensures a[i] == b[i] {
      assert Not(a)[i] == !a[i] && Not(b)[i] == !b[i];
    }
  }
}
