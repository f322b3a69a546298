/** 32-bit words as the bit strings of a reflected CRC register, lowest bit first. */
module Crc32Words {
  import opened BitDivision

  /** 0x04c11db7 and 0x1edc6f41 with their bits reversed. */
  const CRC32_POLY: bv32 := 0xEDB88320
  const CRC32C_POLY: bv32 := 0x82F63B78

  /** n bits of c, from the one m selects upwards. */
  function BitsFrom(c: bv32, m: bv32, n: nat): (r: Bits)
    ensures |r| == n
    decreases n, c
  {
    if n == 0 then [] else [c & m != 0] + BitsFrom(c, m << 1, n - 1)
  }

  function BitsOf(c: bv32, n: nat): (r: Bits)
    ensures |r| == n
  {
    BitsFrom(c, 1, n)
  }

  /** A register, highest coefficient first. */
  function Register(c: bv32): (r: Bits)
    ensures |r| == 32
  {
    BitsOf(c, 32)
  }

  /** A mask of one bit, or of none. */
  predicate Single(m: bv32) {
    m & (m - 1) == 0
  }

  function Up(m: bv32, n: nat): bv32
    decreases n
  {
    if n == 0 then m else Up(m << 1, n - 1)
  }

  // ----- one mask

  lemma SingleUp(m: bv32)
    requires Single(m)
    ensures Single(m << 1)
  {
  }

  lemma MaskXor(a: bv32, b: bv32, m: bv32)
    requires Single(m)
    ensures ((a ^ b) & m != 0) == ((a & m != 0) != (b & m != 0))
  {
  }

  lemma MaskAnd(a: bv32, b: bv32, m: bv32)
    requires Single(m)
    ensures ((a & b) & m != 0) == ((a & m != 0) && (b & m != 0))
  {
  }

  lemma MaskShift(a: bv32, m: bv32)
    ensures ((a >> 1) & m != 0) == (a & (m << 1) != 0)
  {
  }

  // ----- runs of masks

  lemma {:induction false} FromXor(a: bv32, b: bv32, m: bv32, n: nat)
    requires Single(m)
    ensures BitsFrom(a ^ b, m, n) == Xor(BitsFrom(a, m, n), BitsFrom(b, m, n))
    decreases n
  {
    if n > 0 {
      SingleUp(m);
      MaskXor(a, b, m);
      FromXor(a, b, m << 1, n - 1);
    }
  }

  function And(a: Bits, b: Bits): (r: Bits)
    requires |a| == |b|
    ensures |r| == |a|
    ensures forall i :: 0 <= i < |a| ==> r[i] == (a[i] && b[i])
  {
    seq(|a|, i requires 0 <= i < |a| => a[i] && b[i])
  }

  lemma {:induction false} FromAnd(a: bv32, b: bv32, m: bv32, n: nat)
    requires Single(m)
    ensures BitsFrom(a & b, m, n) == And(BitsFrom(a, m, n), BitsFrom(b, m, n))
    decreases n
  {
    if n > 0 {
      SingleUp(m);
      MaskAnd(a, b, m);
      FromAnd(a, b, m << 1, n - 1);
    }
  }

  /** The masks from m on select in b what those from k on select in a. */
  predicate Alike(a: bv32, b: bv32, m: bv32, k: bv32, n: nat)
    decreases n
  {
    n == 0 || ((b & m != 0) == (a & k != 0) && Alike(a, b, m << 1, k << 1, n - 1))
  }

  lemma {:induction false} AlikeBits(a: bv32, b: bv32, m: bv32, k: bv32, n: nat)
    requires Alike(a, b, m, k, n)
    ensures BitsFrom(b, m, n) == BitsFrom(a, k, n)
    decreases n
  {
    if n > 0 {
      AlikeBits(a, b, m << 1, k << 1, n - 1);
    }
  }

  lemma {:induction false} ShiftAlike(a: bv32, m: bv32, n: nat)
    ensures Alike(a, a >> 1, m, m << 1, n)
    decreases n
  {
    if n > 0 {
      MaskShift(a, m);
      ShiftAlike(a, m << 1, n - 1);
    }
  }

  lemma FromShift(a: bv32, m: bv32, n: nat)
    ensures BitsFrom(a >> 1, m, n) == BitsFrom(a, m << 1, n)
  {
    ShiftAlike(a, m, n);
    AlikeBits(a, a >> 1, m, m << 1, n);
  }

  lemma {:induction false} FromSplit(c: bv32, m: bv32, k: nat, n: nat)
    ensures BitsFrom(c, m, k + n) == BitsFrom(c, m, k) + BitsFrom(c, Up(m, k), n)
    decreases k
  {
    if k > 0 {
      FromSplit(c, m << 1, k - 1, n);
    }
  }

  lemma MaskShift8(a: bv32, m: bv32)
    ensures ((a >> 8) & m != 0) == (a & (m << 8) != 0)
    ensures (m << 1) << 8 == (m << 8) << 1
  {
  }

  lemma {:induction false} ShiftAlike8(a: bv32, m: bv32, n: nat)
    ensures Alike(a, a >> 8, m, m << 8, n)
    decreases n
  {
    if n > 0 {
      MaskShift8(a, m);
      ShiftAlike8(a, m << 1, n - 1);
    }
  }

  lemma FromShift8(a: bv32, m: bv32, n: nat)
    ensures BitsFrom(a >> 8, m, n) == BitsFrom(a, m << 8, n)
  {
    ShiftAlike8(a, m, n);
    AlikeBits(a, a >> 8, m, m << 8, n);
  }

  /** The empty mask selects nothing. */
  lemma {:induction false} FromNone(c: bv32, n: nat)
    ensures BitsFrom(c, 0, n) == Zeros(n)
    decreases n
  {
    if n > 0 {
      FromNone(c, n - 1);
    }
  }

  // ----- registers

  lemma Up4(m: bv32)
    ensures Up(m, 4) == m << 4
  {
    assert Up(m << 3, 1) == m << 4;
    assert Up(m << 2, 2) == m << 4;
    assert Up(m << 1, 3) == m << 4;
  }

  lemma {:induction false} UpAppend(m: bv32, k: nat, n: nat)
    ensures Up(m, k + n) == Up(Up(m, k), n)
    decreases k
  {
    if k > 0 {
      UpAppend(m << 1, k - 1, n);
    }
  }

  lemma Up8(m: bv32)
    ensures Up(m, 8) == m << 8
  {
    Up4(m);
    Up4(m << 4);
    UpAppend(m, 4, 4);
  }

  lemma UpByEight()
    ensures Up(1, 8) == 0x100 && Up(0x100, 8) == 0x1_0000 && Up(0x1_0000, 8) == 0x100_0000 && Up(0x100_0000, 8) == 0
  {
    Up8(1);
    Up8(0x100);
    Up8(0x1_0000);
    Up8(0x100_0000);
  }

  lemma Up32()
    ensures Up(1, 32) == 0
  {
    UpByEight();
    UpAppend(1, 8, 24);
    UpAppend(0x100, 8, 16);
    UpAppend(0x1_0000, 8, 8);
  }

  lemma UpperBytes(c: bv32)
    ensures BitsFrom(c, 0x100, 24) == BitsFrom(c, 0x100, 8) + BitsFrom(c, 0x1_0000, 16)
    ensures BitsFrom(c, 0x1_0000, 16) == BitsFrom(c, 0x1_0000, 8) + BitsFrom(c, 0x100_0000, 8)
    ensures Register(c) == BitsOf(c, 8) + BitsFrom(c, 0x100, 24)
  {
    UpByEight();
    FromSplit(c, 1, 8, 24);
    FromSplit(c, 0x100, 8, 16);
    FromSplit(c, 0x1_0000, 8, 8);
  }

  /** A word byte by byte. */
  lemma RegisterBytes(c: bv32)
    ensures Register(c) == BitsOf(c, 8) + (BitsFrom(c, 0x100, 8) + (BitsFrom(c, 0x1_0000, 8) + BitsFrom(c, 0x100_0000, 8)))
  {
    UpperBytes(c);
  }

  /** The next n masks still select something. */
  predicate Room(m: bv32, n: nat)
    decreases n
  {
    n == 0 || (m != 0 && Room(m << 1, n - 1))
  }

  lemma {:induction false} OnesFrom(m: bv32, n: nat)
    requires Room(m, n)
    ensures BitsFrom(0xFFFF_FFFF, m, n) == Ones(n)
    decreases n
  {
    if n > 0 {
      OnesFrom(m << 1, n - 1);
    }
  }

  lemma RoomLow()
    ensures Room(1, 8) && Room(0x100, 8)
  {
  }

  lemma RoomHigh()
    ensures Room(0x1_0000, 8) && Room(0x100_0000, 8)
  {
  }

  lemma AllOnes()
    ensures Register(0xFFFF_FFFF) == Ones(32)
  {
    RoomLow();
    RoomHigh();
    OnesFrom(1, 8);
    OnesFrom(0x100, 8);
    OnesFrom(0x1_0000, 8);
    OnesFrom(0x100_0000, 8);
    RegisterBytes(0xFFFF_FFFF);
  }

  /** A mask above the low byte stays above it, or vanishes. */
  lemma {:induction false} LowNone(m: bv32, n: nat)
    requires m & 0xFF == 0
    ensures BitsFrom(0xFF, m, n) == Zeros(n)
    decreases n
  {
    if n > 0 {
      LowNone(m << 1, n - 1);
    }
  }

  lemma LowOnes()
    ensures BitsOf(0xFF, 8) == Ones(8) && BitsFrom(0xFF, 0x100, 24) == Zeros(24)
  {
    LowNone(0x100, 24);
  }

  lemma RegisterXor(a: bv32, b: bv32)
    ensures Register(a ^ b) == Xor(Register(a), Register(b))
  {
    FromXor(a, b, 1, 32);
  }

  /** Above bit 31 there is nothing. */
  lemma BitsAbove(c: bv32, n: nat)
    ensures BitsOf(c, 32 + n) == Register(c) + Zeros(n)
  {
    Up32();
    FromSplit(c, 1, 32, n);
    FromNone(c, n);
  }

  lemma RegisterShift(c: bv32)
    ensures Register(c >> 1) == Shift(Register(c))
    ensures Register(c)[0] == (c & 1 != 0)
  {
    FromShift(c, 1, 32);
    BitsAbove(c, 1);
    assert BitsOf(c, 33)[1..] == BitsFrom(c, 2, 32);
  }

  lemma DropByte(c: bv32)
    ensures BitsOf(c, 40)[8..] == BitsFrom(c, 0x100, 32)
  {
    Up8(1);
    FromSplit(c, 1, 8, 32);
  }

  lemma RegisterShift8(c: bv32)
    ensures Register(c >> 8) == Register(c)[8..] + Zeros(8)
  {
    FromShift8(c, 1, 32);
    DropByte(c);
    BitsAbove(c, 8);
  }

  lemma RegisterLow8(c: bv32)
    ensures Register(c & 0xFF) == Pad(BitsOf(c, 8), 32)
    ensures BitsOf(c, 8) == Register(c)[..8]
  {
    LowOnes();
    UpByEight();
    FromSplit(c, 1, 8, 24);
    FromSplit(0xFF, 1, 8, 24);
    FromAnd(c, 0xFF, 1, 32);
    AndMask(BitsOf(c, 8), BitsFrom(c, 0x100, 24));
  }

  lemma AndMask(a: Bits, b: Bits)
    ensures And(a + b, Ones(|a|) + Zeros(|b|)) == a + Zeros(|b|)
  {
  }

  // ----- words and registers step alike

  function StepWord(c: bv32, poly: bv32): bv32 {
    if c & 1 != 0 then (c >> 1) ^ poly else c >> 1
  }

  function Iterate(c: bv32, poly: bv32, n: nat): bv32
    decreases n
  {
    if n == 0 then c else Iterate(StepWord(c, poly), poly, n - 1)
  }

  function StepByte(c: bv32, poly: bv32): bv32 {
    StepWord(StepWord(StepWord(StepWord(StepWord(StepWord(StepWord(StepWord(c,
      poly), poly), poly), poly), poly), poly), poly), poly)
  }

  lemma StepsAlike(c: bv32, poly: bv32)
    ensures Register(StepWord(c, poly)) == Step(Register(poly), Register(c))
  {
    RegisterShift(c);
    RegisterXor(c >> 1, poly);
  }

  lemma FeedZero(p: Bits, r: Bits, n: nat)
    requires |r| == |p| > 0
    ensures Feed(p, r, Zeros(n + 1)) == Feed(p, Step(p, r), Zeros(n))
  {
    assert Zeros(n + 1)[1..] == Zeros(n) && Flip(r, false) == r;
  }

  lemma {:induction false} IterateAlike(c: bv32, poly: bv32, n: nat)
    ensures Register(Iterate(c, poly, n)) == Feed(Register(poly), Register(c), Zeros(n))
    decreases n
  {
    if n > 0 {
      StepsAlike(c, poly);
      FeedZero(Register(poly), Register(c), n - 1);
      IterateAlike(StepWord(c, poly), poly, n - 1);
    }
  }

  lemma StepByteIterates(c: bv32, poly: bv32)
    ensures StepByte(c, poly) == Iterate(c, poly, 8)
  {
  }

  // ----- words are determined by their registers

  /** k with n more masks joined to it. */
  function Span(m: bv32, n: nat, k: bv32): bv32
    decreases n
  {
    if n == 0 then k else Span(m << 1, n - 1, m | k)
  }

  lemma SpanJoin(d: bv32, m: bv32, k: bv32)
    requires d & m == 0 && d & k == 0
    ensures d & (m | k) == 0
  {
  }

  lemma {:induction false} FromZero(d: bv32, m: bv32, n: nat, k: bv32)
    requires BitsFrom(d, m, n) == Zeros(n) && d & k == 0
    ensures d & Span(m, n, k) == 0
    decreases n
  {
    if n > 0 {
      assert BitsFrom(d, m, n)[0] == Zeros(n)[0];
      assert BitsFrom(d, m, n)[1..] == Zeros(n)[1..] == Zeros(n - 1);
      SpanJoin(d, m, k);
      FromZero(d, m << 1, n - 1, m | k);
    }
  }

  lemma SpanBytes()
    ensures Span(1, 8, 0) == 0xFF && Span(0x100, 8, 0) == 0xFF00
  {
  }

  lemma SpanUpperBytes()
    ensures Span(0x1_0000, 8, 0) == 0xFF_0000 && Span(0x100_0000, 8, 0) == 0xFF00_0000
  {
  }

  lemma NothingLeft(d: bv32)
    requires d & 0xFF == 0 && d & 0xFF00 == 0 && d & 0xFF_0000 == 0 && d & 0xFF00_0000 == 0
    ensures d == 0
  {
  }

  lemma RegisterZero(d: bv32)
    requires Register(d) == Zeros(32)
    ensures d == 0
  {
    RegisterBytes(d);
    ZeroParts(BitsOf(d, 8), BitsFrom(d, 0x100, 8), BitsFrom(d, 0x1_0000, 8), BitsFrom(d, 0x100_0000, 8));
    FromZero(d, 1, 8, 0);
    FromZero(d, 0x100, 8, 0);
    FromZero(d, 0x1_0000, 8, 0);
    FromZero(d, 0x100_0000, 8, 0);
    SpanBytes();
    SpanUpperBytes();
    NothingLeft(d);
  }

  lemma ZeroParts(a: Bits, b: Bits, c: Bits, d: Bits)
    requires |a| == |b| == |c| == |d| == 8 && a + (b + (c + d)) == Zeros(32)
    ensures a == b == c == d == Zeros(8)
  {
    var z := a + (b + (c + d));
    assert a == z[..8] && b == z[8..16] && c == z[16..24] && d == z[24..];
  }

  lemma XorZero(a: bv32, b: bv32)
    requires a ^ b == 0
    ensures a == b
  {
  }

  /** Different words are different registers. */
  lemma RegisterInjective(a: bv32, b: bv32)
    requires Register(a) == Register(b)
    ensures a == b
  {
    RegisterXor(a, b);
    assert Xor(Register(a), Register(b)) == Zeros(32);
    RegisterZero(a ^ b);
    XorZero(a, b);
  }
}
