/** The multiplications of XXH3, on integers with the wrap-around of 64-bit words written out. */
module Multiply {
  import opened Machine

  const B32: nat := 0x1_0000_0000
  const B64: nat := 0x1_0000_0000_0000_0000
  const PRIME32_1: nat := 0x9E3779B1

  datatype Product = Product(low: nat, high: nat)

  /** The sums of XXH_mult64to128 on its four partial products. The OR of disjoint halves is written as a sum. */
  function Combine(loLo: SizeT, hiLo: SizeT, loHi: SizeT, hiHi: SizeT): Product {
    var cross := (loLo / B32 + hiLo % B32 + loHi) % B64;
    var upper := (hiLo / B32 + cross / B32 + hiHi) % B64;
    var lower := (cross * B32) % B64 + loLo % B32;
    Product(lower, upper)
  }

  /** The portable XXH_mult64to128. */
  function Mult64to128(lhs: SizeT, rhs: SizeT): Product {
    Combine(WrapMul(lhs % B32, rhs % B32), WrapMul(lhs / B32, rhs % B32),
            WrapMul(lhs % B32, rhs / B32), WrapMul(lhs / B32, rhs / B32))
  }

  /** A 32-bit by 32-bit product leaves room for two more 32-bit summands. */
  lemma Mul32Bound(a: nat, b: nat)
    requires a < B32 && b < B32
    ensures a * b <= 0xFFFF_FFFE_0000_0001
    ensures WrapMul(a, b) == a * b
  {
    Mul32Upper(a, b);
    WrapMulExact(a, b);
  }

  lemma Mul32Upper(a: nat, b: nat)
    requires a <= 0xFFFF_FFFF && b <= 0xFFFF_FFFF
    ensures a * b <= 0xFFFF_FFFE_0000_0001
  {
    TimesUpTo(a, b, 0xFFFF_FFFF);
  }

  lemma TimesUpTo(a: nat, b: nat, k: nat)
    requires b <= k
    ensures a * b <= a * k
  {
    assert a * k - a * b == a * (k - b);
  }

  lemma SchoolBook(a1: nat, a0: nat, b1: nat, b0: nat)
    ensures (a1 * B32 + a0) * (b1 * B32 + b0) == (a1 * b1) * B64 + (a1 * b0 + a0 * b1) * B32 + a0 * b0
  {
    var x := b1 * B32 + b0;
    assert (a1 * B32 + a0) * x == a1 * B32 * x + a0 * x;
    assert a0 * x == (a0 * b1) * B32 + a0 * b0;
    assert a1 * x == (a1 * b1) * B32 + a1 * b0;
    assert a1 * B32 * x == (a1 * x) * B32;
  }

  /** Partial products of 32-bit halves add up without wrapping, and to the right total. */
  lemma CombineExact(ll: nat, hl: nat, lh: nat, hh: nat)
    requires ll <= 0xFFFF_FFFE_0000_0001 && hl <= 0xFFFF_FFFE_0000_0001
    requires lh <= 0xFFFF_FFFE_0000_0001 && hh <= 0xFFFF_FFFE_0000_0001
    ensures var cross := ll / B32 + hl % B32 + lh;
      cross < B64 && hl / B32 + cross / B32 + hh < B64
    ensures var r := Combine(ll, hl, lh, hh);
      r.low < B64 && r.high < B64 && r.low + r.high * B64 == hh * B64 + (hl + lh) * B32 + ll
  {
    var cross := ll / B32 + hl % B32 + lh;
    SumParts(ll, hl, lh, hh, ll / B32, ll % B32, hl / B32, hl % B32, cross / B32, cross % B32);
    CombineNoWrap(ll, hl, lh, hh, cross);
  }

  lemma CombineNoWrap(ll: SizeT, hl: SizeT, lh: SizeT, hh: SizeT, cross: nat)
    requires cross == ll / B32 + hl % B32 + lh < B64 && hl / B32 + cross / B32 + hh < B64
    ensures Combine(ll, hl, lh, hh) == Product(cross % B32 * B32 + ll % B32, hl / B32 + cross / B32 + hh)
  {
    SmallWord(cross);
    SmallWord(hl / B32 + cross / B32 + hh);
    ShiftLow(cross);
  }

  lemma SmallWord(x: nat)
    requires x < B64
    ensures x % B64 == x
  {
  }

  lemma SumParts(ll: nat, hl: nat, lh: nat, hh: nat, l1: nat, l0: nat, h1: nat, h0: nat, c1: nat, c0: nat)
    requires ll <= 0xFFFF_FFFE_0000_0001 && hl <= 0xFFFF_FFFE_0000_0001
    requires lh <= 0xFFFF_FFFE_0000_0001 && hh <= 0xFFFF_FFFE_0000_0001
    requires ll == l1 * B32 + l0 && hl == h1 * B32 + h0 && l1 + h0 + lh == c1 * B32 + c0
    requires l0 < B32 && h0 < B32 && c0 < B32
    ensures c1 * B32 + c0 < B64 && h1 + c1 + hh < B64 && c0 * B32 + l0 < B64
    ensures c0 * B32 + l0 + (h1 + c1 + hh) * B64 == hh * B64 + (hl + lh) * B32 + ll
  {
  }

  lemma ShiftLow(c: nat)
    ensures (c * B32) % B64 == (c % B32) * B32
  {
  }

  /** The exact 128-bit product in two 64-bit halves. */
  lemma Mult64to128Exact(lhs: SizeT, rhs: SizeT)
    ensures var r := Mult64to128(lhs, rhs);
      r.low < B64 && r.high < B64 && r.low + r.high * B64 == lhs * rhs
  {
    HalvesExact(lhs / B32, lhs % B32, rhs / B32, rhs % B32);
    assert lhs == lhs / B32 * B32 + lhs % B32 && rhs == rhs / B32 * B32 + rhs % B32;
  }

  lemma HalvesExact(a1: nat, a0: nat, b1: nat, b0: nat)
    requires a1 < B32 && a0 < B32 && b1 < B32 && b0 < B32
    ensures var r := Combine(WrapMul(a0, b0), WrapMul(a1, b0), WrapMul(a0, b1), WrapMul(a1, b1));
      r.low < B64 && r.high < B64 && r.low + r.high * B64 == (a1 * B32 + a0) * (b1 * B32 + b0)
  {
    Mul32Bound(a0, b0);
    Mul32Bound(a1, b0);
    Mul32Bound(a0, b1);
    Mul32Bound(a1, b1);
    CombineExact(a0 * b0, a1 * b0, a0 * b1, a1 * b1);
    SchoolBook(a1, a0, b1, b0);
  }

  /** In words the halves of the low result never overlap, so OR and addition agree. */
  lemma OrIsSum(cross: bv64, loLo: bv64)
    ensures (cross << 32) | (loLo & 0xFFFF_FFFF) == (cross << 32) + (loLo & 0xFFFF_FFFF)
  {
  }

  /** The scalar scramble multiplies the whole word. */
  function ScrambleScalar(x: SizeT): SizeT {
    WrapMul(x, PRIME32_1)
  }

  /** The vector code multiplies the halves and adds the shifted high product. */
  function ScrambleSplit(x: SizeT): SizeT {
    (WrapMul(x % B32, PRIME32_1) + (WrapMul(x / B32, PRIME32_1) * B32) % B64) % B64
  }

  lemma SplitEqualsScalar(x: SizeT)
    ensures ScrambleSplit(x) == ScrambleScalar(x)
  {
    var hi, lo := x / B32, x % B32;
    assert x == hi * B32 + lo;
    TimesPrime(lo);
    TimesPrime(hi);
    SplitSum(lo * PRIME32_1, hi * PRIME32_1);
  }

  lemma TimesPrime(h: nat)
    requires h < B32
    ensures WrapMul(h, PRIME32_1) == h * PRIME32_1 < B64
  {
  }

  lemma SplitSum(p: nat, q: nat)
    requires p < B64 && q < B64
    ensures (p + (q * B32) % B64) % B64 == (p + q * B32) % B64
  {
  }
}
