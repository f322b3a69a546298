/** The arithmetic of automatic resizing. */
module LoadFactor {
  import opened Machine

  /** Load factor bounds as 16-bit fractions. */
  datatype Load = Load(minNum: nat, minDen: nat, maxNum: nat, maxDen: nat)

  /** What vsc_hashmap_configure accepts. */
  predicate Accepted(l: Load) {
    && 0 < l.minNum < l.minDen < 0x1_0000
    && 0 < l.maxNum < l.maxDen < 0x1_0000
    && l.minNum * l.maxDen <= l.maxNum * l.minDen
  }

  const BUCKET_BYTES: nat := 24
  const MAX_BUCKETS: nat := SIZE_MAX / BUCKET_BYTES

  const DEFAULT_LOAD := Load(1, 2, 3, 4)
  const MIN_BUCKETS: nat := 16

  /** intceil */
  function IntCeil(num: nat, den: nat): nat
    requires den > 0
  {
    num / den + if num % den != 0 then 1 else 0
  }

  /** intceil is the least integer not below num / den. */
  lemma CeilBounds(num: nat, den: nat)
    requires den > 0
    ensures num <= IntCeil(num, den) * den < num + den
  {
    var q, m := num / den, num % den;
    assert num == q * den + m;
    assert (q + 1) * den == q * den + den;
  }

  lemma CeilShrinks(num: nat, den: nat)
    requires den > 0
    ensures IntCeil(num, den) <= num
  {
    CeilBounds(num, den);
    if IntCeil(num, den) > num {
      MulMonotonic(num + 1, IntCeil(num, den), den);
      assert (num + 1) * den == num * den + den;
      MulMonotonic(1, den, num);
    }
  }

  lemma MulMonotonic(a: nat, b: nat, k: nat)
    requires a <= b
    ensures a * k <= b * k
  {
  }

  lemma MulCancel(a: nat, b: nat, k: nat)
    requires a * k < b * k
    ensures a < b
  {
    if b <= a { MulMonotonic(b, a, k); }
  }

  /** A value below the guard's ceiling can be multiplied without wrapping. */
  lemma GuardPreventsWrap(x: nat, k: nat)
    requires k > 0 && x < IntCeil(SIZE_MAX, k)
    ensures x * k < SIZE_MAX && WrapMul(x, k) == x * k
  {
    CeilBounds(SIZE_MAX, k);
    MulMonotonic(x + 1, IntCeil(SIZE_MAX, k), k);
    WrapMulExact(x, k);
  }

  /** The bucket count below which no resize is asked for. */
  function Threshold(l: Load, numBuckets: nat): nat
    requires Accepted(l)
  {
    IntCeil(WrapMul(numBuckets, l.maxNum), l.maxDen)
  }

  /** The bucket count a triggered resize asks for. */
  function Request(l: Load, size: nat): SizeT
    requires Accepted(l)
  {
    CeilShrinks(WrapMul(size + 1, l.minDen), l.minNum);
    var minreq := IntCeil(WrapMul(size + 1, l.minDen), l.minNum);
    if minreq > MIN_BUCKETS then minreq else MIN_BUCKETS
  }

  lemma StrictMul(a: nat, b: nat, k: nat)
    requires a < b && k > 0
    ensures a * k < b * k
  {
    MulMonotonic(a + 1, b, k);
  }

  /** A ceiling of n * (num / den) with num <= den does not exceed n. */
  lemma CeilAtMost(n: nat, num: nat, den: nat, t: nat)
    requires num <= den && t * den < n * num + den
    ensures t <= n
  {
    MulMonotonic(num, den, n);
    assert (n + 1) * den == n * den + den;
    MulCancel(t, n + 1, den);
  }

  /** Under the threshold there is a free bucket. */
  lemma BelowThresholdHasRoom(l: Load, numBuckets: nat, size: nat)
    requires Accepted(l) && numBuckets < IntCeil(SIZE_MAX, l.maxNum)
    requires size < Threshold(l, numBuckets)
    ensures size < numBuckets
  {
    GuardPreventsWrap(numBuckets, l.maxNum);
    CeilBounds(numBuckets * l.maxNum, l.maxDen);
    CeilAtMost(numBuckets, l.maxNum, l.maxDen, Threshold(l, numBuckets));
  }

  lemma MulRegroup(a: nat, b: nat, c: nat)
    ensures (a * b) * c == a * (b * c) == (a * c) * b
  {
  }

  /** If s is above n * (c / d) and a / b <= c / d then s * (b / a) is above n. */
  lemma ScaleUp(s: nat, n: nat, a: nat, b: nat, c: nat, d: nat, m: nat)
    requires a * d <= c * b && s * d > n * c && m * a >= s * b && b > 0
    ensures m > n
  {
    var x, y, z := n * a, n * c, s * d;
    assert x * d <= y * b by {
      MulRegroup(n, a, d);
      MulMonotonic(a * d, c * b, n);
      MulRegroup(n, c, b);
    }
    StrictMul(y, z, b);
    assert z * b <= (m * a) * d by {
      MulRegroup(s, d, b);
      MulMonotonic(s * b, m * a, d);
    }
    MulCancel(x, m * a, d);
    MulCancel(n, m, a);
  }

  lemma AboveThreshold(n: nat, num: nat, den: nat, t: nat, size: nat)
    requires t * den >= n * num && size >= t && den > 0
    ensures (size + 1) * den > n * num
  {
    MulMonotonic(t, size, den);
    StrictMul(size, size + 1, den);
  }

  lemma RequestAbove(s: nat, num: nat, den: nat, m: nat)
    requires 0 < num < den && s > 0 && m * num >= s * den
    ensures m > s
  {
    StrictMul(num, den, s);
    MulCancel(s, m, num);
  }

  /** When the product does not wrap, the request meets the minimum load and exceeds the old capacity. */
  lemma RequestGrows(l: Load, numBuckets: nat, size: nat)
    requires Accepted(l) && numBuckets < IntCeil(SIZE_MAX, l.maxNum)
    requires size >= Threshold(l, numBuckets)
    requires (size + 1) * l.minDen <= SIZE_MAX
    ensures Request(l, size) > numBuckets
    ensures Request(l, size) > size + 1
    ensures Request(l, size) * l.minNum >= (size + 1) * l.minDen
  {
    GuardPreventsWrap(numBuckets, l.maxNum);
    WrapMulExact(size + 1, l.minDen);
    CeilBounds(numBuckets * l.maxNum, l.maxDen);
    CeilBounds((size + 1) * l.minDen, l.minNum);
    AboveThreshold(numBuckets, l.maxNum, l.maxDen, Threshold(l, numBuckets), size);
    var m := IntCeil(WrapMul(size + 1, l.minDen), l.minNum);
    ScaleUp(size + 1, numBuckets, l.minNum, l.minDen, l.maxNum, l.maxDen, m);
    RequestAbove(size + 1, l.minNum, l.minDen, m);
    MulMonotonic(m, Request(l, size), l.minNum);
  }

  /** The request meets the minimum load exactly when its product does not wrap. */
  lemma RequestExact(l: Load, size: nat)
    requires Accepted(l)
    ensures Request(l, size) * l.minNum >= (size + 1) * l.minDen <==> (size + 1) * l.minDen <= SIZE_MAX
  {
    var p := (size + 1) * l.minDen;
    var w := WrapMul(size + 1, l.minDen);
    var m := IntCeil(w, l.minNum);
    CeilBounds(w, l.minNum);
    if p <= SIZE_MAX {
      WrapMulExact(size + 1, l.minDen);
      MulMonotonic(m, Request(l, size), l.minNum);
    } else {
      WrappedBelow(p);
      assert MIN_BUCKETS * l.minNum < 0x10_0000;
    }
  }

  /** What is left of a product that wraps is below it by at least 2^64. */
  lemma WrappedBelow(p: nat)
    requires p > SIZE_MAX
    ensures p % 0x1_0000_0000_0000_0000 <= p - 0x1_0000_0000_0000_0000
  {
  }

  /** The fractions for which no automatic request can wrap: a test on the fractions alone. */
  predicate Covers(l: Load) {
    l.minDen <= l.maxDen || l.minDen <= BUCKET_BYTES
  }

  /** The guard, made with the maximum's denominator, covers the request. */
  lemma GuardCoversRequest(l: Load, size: nat)
    requires Accepted(l) && Covers(l) && size < MAX_BUCKETS
    requires size + 1 < IntCeil(SIZE_MAX, l.maxDen)
    ensures (size + 1) * l.minDen <= SIZE_MAX
  {
    if l.minDen <= l.maxDen {
      GuardPreventsWrap(size + 1, l.maxDen);
      MulMonotonic(l.minDen, l.maxDen, size + 1);
    } else {
      MulMonotonic(size + 1, MAX_BUCKETS, l.minDen);
      MulMonotonic(l.minDen, BUCKET_BYTES, MAX_BUCKETS);
    }
  }

  datatype Policy = RESIZE_LOAD_FACTOR | RESIZE_NONE

  datatype Decision = Refuse(status: Status) | Enough | Grow(nelem: SizeT)

  /** The decision taken by maybe_resize. */
  function Decide(l: Load, policy: Policy, numBuckets: nat, size: nat): Decision
    requires Accepted(l)
  {
    if numBuckets >= IntCeil(SIZE_MAX, l.maxNum) then Refuse(ERANGE)
    else if size < Threshold(l, numBuckets) then Enough
    else if policy == RESIZE_NONE then Refuse(EPERM)
    else if size + 1 >= IntCeil(SIZE_MAX, l.maxDen) then Refuse(ERANGE)
    else Grow(Request(l, size))
  }

  /** No resize request for this size is computed with wrap-around. */
  predicate Fits(l: Load, size: nat) {
    Covers(l) || (size + 1) * l.minDen <= SIZE_MAX
  }

  /**
   * Enough means a free bucket. Growing asks for the minimum load exactly when the request does not wrap, and then
   * really grows.
   */
  lemma DecideSound(l: Load, policy: Policy, numBuckets: nat, size: nat)
    requires Accepted(l) && size < MAX_BUCKETS
    ensures var d := Decide(l, policy, numBuckets, size);
      && (d.Refuse? ==> d.status == ERANGE || (d.status == EPERM && policy == RESIZE_NONE))
      && (d.Enough? ==> size < numBuckets)
      && (d.Grow? ==> policy == RESIZE_LOAD_FACTOR)
      && (d.Grow? ==> (d.nelem * l.minNum >= (size + 1) * l.minDen <==> Fits(l, size)))
      && (d.Grow? && Fits(l, size) ==> d.nelem > numBuckets && d.nelem > size + 1)
  {
    var d := Decide(l, policy, numBuckets, size);
    if d.Enough? {
      BelowThresholdHasRoom(l, numBuckets, size);
    } else if d.Grow? {
      RequestExact(l, size);
      if Covers(l) {
        GuardCoversRequest(l, size);
      }
      if Fits(l, size) {
        RequestGrows(l, numBuckets, size);
      }
    }
  }

  // ----- the decision in plain numbers

  /** The guard lets x through exactly when x * k stays below the largest word. */
  lemma GuardExact(x: nat, k: nat)
    requires k > 0
    ensures x < IntCeil(SIZE_MAX, k) <==> x * k < SIZE_MAX
  {
    if x < IntCeil(SIZE_MAX, k) {
      GuardPreventsWrap(x, k);
    }
    if x * k < SIZE_MAX {
      BelowCeil(x, k);
    }
  }

  /** A rounded-up quotient is at most m exactly when the numerator is at most m * den. */
  lemma CeilLeast(num: nat, den: nat, m: nat)
    requires den > 0
    ensures IntCeil(num, den) <= m <==> num <= m * den
  {
    CeilBounds(num, den);
    if IntCeil(num, den) <= m {
      MulMonotonic(IntCeil(num, den), m, den);
    } else {
      MulMonotonic(m + 1, IntCeil(num, den), den);
    }
  }

  /** The load is at or above the maximum. */
  predicate Due(l: Load, numBuckets: nat, size: nat) {
    size * l.maxDen >= numBuckets * l.maxNum
  }

  /** No resize is due exactly when the load is below its maximum. */
  lemma ThresholdExact(l: Load, numBuckets: nat, size: nat)
    requires Accepted(l) && numBuckets * l.maxNum < SIZE_MAX
    ensures size >= Threshold(l, numBuckets) <==> size * l.maxDen >= numBuckets * l.maxNum
  {
    WrapMulExact(numBuckets, l.maxNum);
    CeilLeast(numBuckets * l.maxNum, l.maxDen, size);
  }

  /** Every decision, by its exact condition. */
  lemma DecideExact(l: Load, policy: Policy, numBuckets: nat, size: nat)
    requires Accepted(l)
    ensures var d, due := Decide(l, policy, numBuckets, size), size * l.maxDen >= numBuckets * l.maxNum;
      && (d == Enough <==> numBuckets * l.maxNum < SIZE_MAX && !due)
      && (d == Refuse(EPERM) <==> numBuckets * l.maxNum < SIZE_MAX && due && policy == RESIZE_NONE)
      && (d.Grow? <==> numBuckets * l.maxNum < SIZE_MAX && due && policy == RESIZE_LOAD_FACTOR && (size + 1) * l.maxDen < SIZE_MAX)
      && (d == Enough || d == Refuse(EPERM) || d.Grow? || d == Refuse(ERANGE))
      && (d.Grow? ==> d.nelem == Request(l, size))
  {
    GuardExact(numBuckets, l.maxNum);
    GuardExact(size + 1, l.maxDen);
    if numBuckets * l.maxNum < SIZE_MAX {
      ThresholdExact(l, numBuckets, size);
    }
  }

  /** The request is the least count of at least 16 buckets at which the product, as computed, meets the minimum load. */
  lemma RequestLeast(l: Load, size: nat, m: nat)
    requires Accepted(l)
    ensures Request(l, size) <= m <==> m >= 16 && (size + 1) * l.minDen % 0x1_0000_0000_0000_0000 <= m * l.minNum
    ensures (size + 1) * l.minDen <= SIZE_MAX ==>
      (Request(l, size) <= m <==> m >= 16 && (size + 1) * l.minDen <= m * l.minNum)
  {
    CeilLeast(WrapMul(size + 1, l.minDen), l.minNum, m);
    if (size + 1) * l.minDen <= SIZE_MAX {
      WrapMulExact(size + 1, l.minDen);
    }
  }

  /** A new map, with the fractions it starts with: 16 buckets at the first entry, 26 at the thirteenth. */
  lemma DefaultGrowth(numBuckets: nat, size: nat)
    requires (numBuckets == 0 && size == 0) || (numBuckets == 16 && size <= 12)
    ensures Decide(DEFAULT_LOAD, RESIZE_LOAD_FACTOR, numBuckets, size) ==
      if numBuckets == 0 then Grow(16) else if size < 12 then Enough else Grow(26)
  {
    var d := Decide(DEFAULT_LOAD, RESIZE_LOAD_FACTOR, numBuckets, size);
    DecideExact(DEFAULT_LOAD, RESIZE_LOAD_FACTOR, numBuckets, size);
    RequestLeast(DEFAULT_LOAD, size, 16);
    RequestLeast(DEFAULT_LOAD, size, 15);
    RequestLeast(DEFAULT_LOAD, size, 26);
    RequestLeast(DEFAULT_LOAD, size, 25);
  }

  // ----- when the guard covers every size

  /** The largest number of entries and one more that the guard lets through in a table of any size. */
  function Largest(l: Load): nat
    requires Accepted(l)
  {
    if MAX_BUCKETS <= (SIZE_MAX - 1) / l.maxDen then MAX_BUCKETS else (SIZE_MAX - 1) / l.maxDen
  }

  lemma LargestBounds(l: Load)
    requires Accepted(l)
    ensures 0x1_0000 < Largest(l) <= MAX_BUCKETS && Largest(l) * l.maxDen < SIZE_MAX
  {
    var q := (SIZE_MAX - 1) / l.maxDen;
    assert q * l.maxDen <= SIZE_MAX - 1 < q * l.maxDen + l.maxDen;
    MulMonotonic(Largest(l), q, l.maxDen);
    if q <= 0x1_0000 {
      MulMonotonic(q, 0x1_0000, l.maxDen);
    }
  }

  /** Fewer than the ceiling of SIZE_MAX / k. */
  lemma BelowCeil(x: nat, k: nat)
    requires k > 0 && x * k < SIZE_MAX
    ensures x < IntCeil(SIZE_MAX, k)
  {
    CeilBounds(SIZE_MAX, k);
    MulCancel(x, IntCeil(SIZE_MAX, k), k);
  }

  lemma LargestGrows(l: Load)
    requires Accepted(l)
    ensures Largest(l) > 0 && Decide(l, RESIZE_LOAD_FACTOR, Largest(l) - 1, Largest(l) - 1).Grow?
  {
    LargestBounds(l);
    var n := Largest(l) - 1;
    MulMonotonic(n, Largest(l), l.maxDen);
    MulMonotonic(l.maxNum, l.maxDen, n);
    BelowCeil(n, l.maxNum);
    BelowCeil(n + 1, l.maxDen);
    GuardPreventsWrap(n, l.maxNum);
    CeilBounds(n * l.maxNum, l.maxDen);
    CeilAtMost(n, l.maxNum, l.maxDen, Threshold(l, n));
  }

  lemma LargestWraps(l: Load)
    requires Accepted(l) && !Covers(l)
    ensures Largest(l) * l.minDen > SIZE_MAX
  {
    LargestBounds(l);
    var q := (SIZE_MAX - 1) / l.maxDen;
    if Largest(l) == MAX_BUCKETS {
      MulMonotonic(BUCKET_BYTES + 1, l.minDen, MAX_BUCKETS);
    } else {
      assert SIZE_MAX - 1 < q * l.maxDen + l.maxDen;
      MulMonotonic(l.maxDen + 1, l.minDen, q);
      assert q * (l.maxDen + 1) == q * l.maxDen + q;
    }
  }

  /** The guard keeps every request of every table from wrapping exactly when the fractions pass the test. */
  lemma CoversExact(l: Load)
    requires Accepted(l)
    ensures Covers(l) <==> forall n: nat, size: nat ::
      size <= n < MAX_BUCKETS && Decide(l, RESIZE_LOAD_FACTOR, n, size).Grow? ==> (size + 1) * l.minDen <= SIZE_MAX
  {
    if Covers(l) {
      forall n: nat, size: nat | size <= n < MAX_BUCKETS && Decide(l, RESIZE_LOAD_FACTOR, n, size).Grow?
        ensures (size + 1) * l.minDen <= SIZE_MAX
      {
        GuardCoversRequest(l, size);
      }
    } else {
      LargestBounds(l);
      LargestGrows(l);
      LargestWraps(l);
    }
  }

  /** Where they do not, a request can pass both guards and still wrap, here to fewer buckets than there are entries. */
  lemma GuardMissesRequest()
    ensures exists l: Load, n: nat, size: nat ::
      && Accepted(l) && size <= n && 24 * n < SIZE_MAX && n < IntCeil(SIZE_MAX, l.maxNum)
      && size >= Threshold(l, n) && size + 1 < IntCeil(SIZE_MAX, l.maxDen)
      && Request(l, size) < size
  {
    var l := Load(1, 65535, 1, 2);
    var size := 281479271743489;   // (size + 1) * 65535 == 2^64 + 65534
    assert WrapMul(size, l.maxNum) == size;
    assert Threshold(l, size) <= size;
    assert Accepted(l) && Request(l, size) < size;
  }
}
