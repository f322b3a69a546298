/** Raw memory as bytes, little-endian words in it, and powers of two. */
module Memory {
  import opened Machine

  type Bytes = seq<byte>

  // ----- writing

  /** Memory after data is stored from address a on. What lies past the end of the address space is dropped. */
  function Write(m: Bytes, a: nat, data: Bytes): (r: Bytes)
    ensures |r| == |m|
    decreases |data|, m
  {
    if data == [] then m
    else Write(if a < |m| then m[a := data[0]] else m, a + 1, data[1..])
  }

  lemma {:induction false} WriteAt(m: Bytes, a: nat, data: Bytes, i: nat)
    requires i < |m|
    ensures Write(m, a, data)[i] == (if a <= i < a + |data| then data[i - a] else m[i])
    decreases |data|
  {
    if data != [] {
      WriteAt(if a < |m| then m[a := data[0]] else m, a + 1, data[1..], i);
    }
  }

  lemma {:induction false} WriteInside(m: Bytes, a: nat, data: Bytes, x: nat, l: nat)
    requires x <= a && a + |data| <= x + l <= |m|
    ensures Write(m, a, data)[x..x + l] == Write(m[x..x + l], a - x, data)
    decreases |data|
  {
    if data != [] {
      assert m[a := data[0]][x..x + l] == m[x..x + l][a - x := data[0]];
      WriteInside(m[a := data[0]], a + 1, data[1..], x, l);
    }
  }

  lemma WriteOutside(m: Bytes, a: nat, data: Bytes, x: nat, l: nat)
    requires x + l <= |m| && (x + l <= a || a + |data| <= x)
    ensures Write(m, a, data)[x..x + l] == m[x..x + l]
  {
    forall i | x <= i < x + l ensures Write(m, a, data)[i] == m[i] {
      WriteAt(m, a, data, i);
    }
  }

  lemma WriteReads(m: Bytes, a: nat, data: Bytes)
    requires a + |data| <= |m|
    ensures Write(m, a, data)[a..a + |data|] == data
  {
    forall i | 0 <= i < |data| ensures Write(m, a, data)[a + i] == data[i] {
      WriteAt(m, a, data, a + i);
    }
  }

  lemma SliceOfSlice(m: Bytes, i: nat, j: nat, k: nat, l: nat)
    requires i <= j <= |m| && k <= l <= j - i
    ensures m[i..j][k..l] == m[i + k..i + l]
  {
    var inner, outer := m[i..j][k..l], m[i + k..i + l];
    forall n | 0 <= n < l - k ensures inner[n] == outer[n] {
      assert inner[n] == m[i..j][k + n];
    }
  }

  // ----- words

  function Val(s: Bytes): nat {
    if s == [] then 0 else s[0] + 256 * Val(s[1..])
  }

  function LE(x: nat, n: nat): (s: Bytes)
    ensures |s| == n
    decreases n, x
  {
    if n == 0 then [] else [x % 256] + LE(x / 256, n - 1)
  }

  function Pow256(n: nat): (p: nat)
    ensures p > 0
    decreases n
  {
    if n == 0 then 1 else 256 * Pow256(n - 1)
  }

  lemma {:induction false} ValLE(x: nat, n: nat)
    requires x < Pow256(n)
    ensures Val(LE(x, n)) == x
    decreases n
  {
    if n > 0 {
      ValLE(x / 256, n - 1);
      assert LE(x, n)[1..] == LE(x / 256, n - 1);
    }
  }

  const ADDRESS_SPACE: nat := 0x1_0000_0000_0000_0000

  lemma WordValue(x: nat)
    requires x < ADDRESS_SPACE
    ensures Val(LE(x, 8)) == x
  {
    assert Pow256(8) == ADDRESS_SPACE;
    ValLE(x, 8);
  }

  /** The 8-byte word at address a. */
  function Word(m: Bytes, a: nat): nat
    requires a + 8 <= |m|
  {
    Val(m[a..a + 8])
  }

  /** Consecutive words from address a on. */
  function WriteWords(m: Bytes, a: nat, words: seq<nat>): (r: Bytes)
    ensures |r| == |m|
    decreases words
  {
    if words == [] then m else WriteWords(Write(m, a, LE(words[0], 8)), a + 8, words[1..])
  }

  lemma WriteKeepsWord(m: Bytes, a: nat, data: Bytes, x: nat)
    requires x + 8 <= |m| && (x + 8 <= a || a + |data| <= x)
    ensures Word(Write(m, a, data), x) == Word(m, x)
  {
    WriteOutside(m, a, data, x, 8);
  }

  lemma WriteWord(m: Bytes, a: nat, x: nat)
    requires a + 8 <= |m| && x < ADDRESS_SPACE
    ensures Word(Write(m, a, LE(x, 8)), a) == x
  {
    WriteReads(m, a, LE(x, 8));
    WordValue(x);
  }

  lemma {:induction false} WriteWordsOutside(m: Bytes, a: nat, words: seq<nat>, x: nat, l: nat)
    requires x + l <= |m| && (x + l <= a || a + 8 * |words| <= x)
    ensures WriteWords(m, a, words)[x..x + l] == m[x..x + l]
    decreases |words|
  {
    if words != [] {
      WriteOutside(m, a, LE(words[0], 8), x, l);
      WriteWordsOutside(Write(m, a, LE(words[0], 8)), a + 8, words[1..], x, l);
    }
  }

  lemma {:induction false} WriteWordsAt(m: Bytes, a: nat, words: seq<nat>, i: nat)
    requires a + 8 * |words| <= |m| && i < |words| && words[i] < ADDRESS_SPACE
    ensures Word(WriteWords(m, a, words), a + 8 * i) == words[i]
    decreases |words|
  {
    var m1 := Write(m, a, LE(words[0], 8));
    if i == 0 {
      WriteWord(m, a, words[0]);
      WriteWordsOutside(m1, a + 8, words[1..], a, 8);
    } else {
      WriteWordsAt(m1, a + 8, words[1..], i - 1);
    }
  }

  /** The given words are at a and after. */
  predicate WordsAt(m: Bytes, a: nat, words: seq<nat>)
    decreases |words|, m
  {
    words == [] || (a + 8 <= |m| && Word(m, a) == words[0] && WordsAt(m, a + 8, words[1..]))
  }

  lemma {:induction false} WordAtIndex(m: Bytes, a: nat, words: seq<nat>, i: nat)
    requires WordsAt(m, a, words) && i < |words|
    ensures a + 8 * i + 8 <= |m| && Word(m, a + 8 * i) == words[i]
    decreases i
  {
    if i > 0 {
      WordAtIndex(m, a + 8, words[1..], i - 1);
    }
  }

  lemma {:induction false} WordsWritten(m: Bytes, a: nat, words: seq<nat>)
    requires a + 8 * |words| <= |m| && forall i :: 0 <= i < |words| ==> words[i] < ADDRESS_SPACE
    ensures WordsAt(WriteWords(m, a, words), a, words)
    decreases |words|
  {
    if words != [] {
      WriteWordsAt(m, a, words, 0);
      WordsWritten(Write(m, a, LE(words[0], 8)), a + 8, words[1..]);
    }
  }

  /** A write elsewhere keeps them. */
  lemma {:induction false} WriteKeepsWords(m: Bytes, a: nat, data: Bytes, x: nat, words: seq<nat>)
    requires WordsAt(m, x, words) && (x + 8 * |words| <= a || a + |data| <= x)
    ensures WordsAt(Write(m, a, data), x, words)
    decreases |words|
  {
    if words != [] {
      WriteKeepsWord(m, a, data, x);
      WriteKeepsWords(m, a, data, x + 8, words[1..]);
    }
  }

  lemma {:induction false} WordsAlike(m: Bytes, w: Bytes, a: nat, words: seq<nat>)
    requires WordsAt(m, a, words) && a + 8 * |words| <= |m| == |w| && m[a..a + 8 * |words|] == w[a..a + 8 * |words|]
    ensures WordsAt(w, a, words)
    decreases |words|
  {
    if words != [] {
      var n := 8 * |words|;
      SliceOfSlice(m, a, a + n, 0, 8);
      SliceOfSlice(w, a, a + n, 0, 8);
      SliceOfSlice(m, a, a + n, 8, n);
      SliceOfSlice(w, a, a + n, 8, n);
      WordsAlike(m, w, a + 8, words[1..]);
    }
  }

  // ----- powers of two and alignment

  function Pow2(k: nat): (p: nat)
    ensures p > 0
  {
    if k == 0 then 1 else 2 * Pow2(k - 1)
  }

  ghost predicate IsPot(a: nat) {
    exists k: nat :: a == Pow2(k)
  }

  /** The number of trailing zero bits of a. */
  function Ctz(a: nat): nat
    requires a > 0
    decreases a
  {
    if a % 2 == 1 then 0 else 1 + Ctz(a / 2)
  }

  lemma {:induction false} CtzPow2(k: nat)
    ensures Ctz(Pow2(k)) == k
  {
    if k > 0 {
      CtzPow2(k - 1);
    }
  }

  lemma {:induction false} Pow2Add(j: nat, k: nat)
    ensures Pow2(j + k) == Pow2(j) * Pow2(k)
    decreases j
  {
    if j > 0 {
      Pow2Add(j - 1, k);
    }
  }

  lemma {:induction false} Pow2Monotone(j: nat, k: nat)
    ensures j <= k <==> Pow2(j) <= Pow2(k)
    decreases j + k
  {
    if j > 0 && k > 0 {
      Pow2Monotone(j - 1, k - 1);
    }
  }

  /** x is a multiple of a. */
  predicate Aligned(x: nat, a: nat)
    requires a > 0
  {
    x % a == 0
  }

  /** The least multiple of a that is not below x. */
  function AlignUp(x: nat, a: nat): nat
    requires a > 0
  {
    (x + (a - 1)) / a * a
  }

  function AlignDown(x: nat, a: nat): nat
    requires a > 0
  {
    x / a * a
  }

  lemma {:induction false} DivideProduct(q: nat, a: nat)
    requires a > 0
    ensures (q * a) / a == q && (q * a) % a == 0
    decreases q
  {
    if q > 0 {
      DivideProduct(q - 1, a);
      assert q * a == (q - 1) * a + a;
      AddMultiple((q - 1) * a, a);
    } else {
      assert q * a == 0;
    }
  }

  lemma AddMultiple(x: nat, a: nat)
    requires a > 0
    ensures (x + a) / a == x / a + 1 && (x + a) % a == x % a
  {
    var q, r := x / a, x % a;
    assert x + a == (q + 1) * a + r;
    QuotientUnique(x + a, a, q + 1, r);
  }

  lemma TimesAtLeast(d: int, a: int)
    requires a >= 0
    ensures d >= 1 ==> d * a >= a
    ensures d <= -1 ==> d * a <= -a
  {
  }

  lemma QuotientUnique(x: nat, a: nat, q: nat, r: nat)
    requires a > 0 && r < a && x == q * a + r
    ensures x / a == q && x % a == r
  {
    var d := x / a - q;
    assert x == (x / a) * a + x % a;
    assert (x / a) * a == q * a + d * a;
    TimesAtLeast(d, a);
  }

  /** AlignUp is the least multiple of a at or above x. */
  lemma AlignUpLeast(x: nat, a: nat)
    requires a > 0
    ensures Aligned(AlignUp(x, a), a) && x <= AlignUp(x, a) < x + a
    ensures forall y: nat | y >= x && Aligned(y, a) :: y >= AlignUp(x, a)
  {
    var q := (x + (a - 1)) / a;
    assert x + (a - 1) == q * a + (x + (a - 1)) % a;
    DivideProduct(q, a);
    forall y: nat | y >= x && Aligned(y, a) ensures y >= q * a {
      NoneBetween(q * a - y, y / a, q, y, a);
    }
  }

  lemma NoneBetween(gap: int, k: nat, q: nat, y: nat, a: nat)
    requires a > 0 && y % a == 0 && k == y / a && gap == q * a - y
    requires gap < a
    ensures gap <= 0
  {
    assert y == k * a;
    assert gap == (q - k) * a;
    TimesAtLeast(q - k, a);
  }

  lemma AlignUpIs(x: nat, a: nat, r: nat)
    requires a > 0 && Aligned(r, a) && x <= r < x + a
    ensures AlignUp(x, a) == r
  {
    AlignUpLeast(x, a);
    var u := AlignUp(x, a);
    assert u == (u / a) * a && r == (r / a) * a;
    assert r - u == (r / a - u / a) * a;
    TimesAtLeast(r / a - u / a, a);
  }

  lemma AlignUpMonotone(x: nat, y: nat, a: nat)
    requires a > 0 && x <= y
    ensures AlignUp(x, a) <= AlignUp(y, a)
  {
    AlignUpLeast(x, a);
    AlignUpLeast(y, a);
  }

  lemma AlignedSum(x: nat, y: nat, a: nat)
    requires a > 0 && Aligned(x, a)
    ensures Aligned(x + y, a) <==> Aligned(y, a)
  {
    var k, j, r := x / a, y / a, y % a;
    assert x == k * a && y == j * a + r;
    assert x + y == (k + j) * a + r;
    QuotientUnique(x + y, a, k + j, r);
  }

  /** From an aligned address, aligning up does not depend on the address. */
  lemma AlignUpShift(base: nat, x: nat, a: nat)
    requires a > 0 && Aligned(base, a)
    ensures AlignUp(base + x, a) == base + AlignUp(x, a)
  {
    AlignUpLeast(x, a);
    AlignedSum(base, AlignUp(x, a), a);
    AlignUpIs(base + x, a, base + AlignUp(x, a));
  }

  lemma MultipleOfPart(q: nat, a: nat, c: nat)
    requires a > 0
    ensures (q * (a * c)) % a == 0
  {
    assert q * (a * c) == (q * c) * a;
    DivideProduct(q * c, a);
  }

  lemma MultipleOf(x: nat, b: nat)
    requires b > 0 && x % b == 0
    ensures x == (x / b) * b
  {
  }

  lemma AlignedPart(x: nat, j: nat, k: nat)
    requires j <= k && Aligned(x, Pow2(k))
    ensures Aligned(x, Pow2(j))
  {
    Pow2Add(j, k - j);
    MultipleOf(x, Pow2(k));
    MultipleOfPart(x / Pow2(k), Pow2(j), Pow2(k - j));
  }

  lemma Pow2Eight()
    ensures Pow2(3) == 8
  {
  }

  /** x is a multiple of the k-th power of two, one bit at a time. */
  predicate LowBitsZero(x: nat, k: nat)
    decreases k
  {
    k == 0 || (x % 2 == 0 && LowBitsZero(x / 2, k - 1))
  }

  lemma {:induction false} LowBitsAligned(x: nat, k: nat)
    ensures LowBitsZero(x, k) <==> Aligned(x, Pow2(k))
    decreases k
  {
    if k > 0 {
      LowBitsAligned(x / 2, k - 1);
      HalfAligned(x, Pow2(k - 1));
    }
  }

  lemma HalfAligned(x: nat, a: nat)
    requires a > 0
    ensures Aligned(x, 2 * a) <==> x % 2 == 0 && Aligned(x / 2, a)
  {
    if Aligned(x, 2 * a) {
      MultipleOf(x, 2 * a);
      var q := x / (2 * a);
      assert x == 2 * (q * a);
      DivideProduct(q, a);
    }
    if x % 2 == 0 && Aligned(x / 2, a) {
      MultipleOf(x / 2, a);
      var q := x / 2 / a;
      assert x == q * (2 * a);
      DivideProduct(q, 2 * a);
    }
  }
}
