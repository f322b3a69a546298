/**
 * Polynomials over GF(2) as bit strings, highest coefficient first: shift registers, the long
 * division they carry out, and what a register can tell apart.
 */
module BitDivision {
  type Bits = seq<bool>

  function Zeros(n: nat): (r: Bits)
    ensures |r| == n
  {
    seq(n, i => false)
  }

  function Ones(n: nat): (r: Bits)
    ensures |r| == n
  {
    seq(n, i => true)
  }

  function Xor(a: Bits, b: Bits): (r: Bits)
    requires |a| == |b|
    ensures |r| == |a|
    ensures forall i :: 0 <= i < |a| ==> r[i] == (a[i] != b[i])
  {
    seq(|a|, i requires 0 <= i < |a| => a[i] != b[i])
  }

  function Not(a: Bits): (r: Bits)
    ensures |r| == |a|
    ensures forall i :: 0 <= i < |a| ==> r[i] == !a[i]
  {
    seq(|a|, i requires 0 <= i < |a| => !a[i])
  }

  // ----- the register

  function Shift(r: Bits): (s: Bits)
    requires |r| > 0
    ensures |s| == |r|
  {
    r[1..] + [false]
  }

  /** Multiply by x and reduce: the bit that falls out brings p in. */
  function Step(p: Bits, r: Bits): (s: Bits)
    requires |r| == |p| > 0
    ensures |s| == |p|
  {
    if r[0] then Xor(Shift(r), p) else Shift(r)
  }

  function Flip(r: Bits, b: bool): (s: Bits)
    requires |r| > 0
    ensures |s| == |r|
  {
    [r[0] != b] + r[1..]
  }

  /** The register after the bits of m, one at a time. */
  function Feed(p: Bits, r: Bits, m: Bits): (s: Bits)
    requires |r| == |p| > 0
    ensures |s| == |p|
    decreases |m|, r
  {
    if m == [] then r else Feed(p, Step(p, Flip(r, m[0])), m[1..])
  }

  // ----- long division

  /** Adds r to the leading coefficients of d. */
  function Overlay(r: Bits, d: Bits): (s: Bits)
    requires |r| <= |d|
    ensures |s| == |d|
  {
    Xor(r, d[..|r|]) + d[|r|..]
  }

  /** The remainder of d divided by x^|p| + p: cancel the leading coefficient until |p| of them are left. */
  function Remainder(p: Bits, d: Bits): (r: Bits)
    ensures |d| >= |p| ==> |r| == |p|
    decreases |d|
  {
    if |d| <= |p| then d
    else if d[0] then Remainder(p, Overlay(p, d[1..]))
    else Remainder(p, d[1..])
  }

  lemma OverlayShift(r: Bits, d: Bits)
    requires 0 < |r| < |d|
    ensures Overlay(r, d)[0] == Flip(r, d[0])[0]
    ensures Overlay(r, d)[1..] == Overlay(Shift(Flip(r, d[0])), d[1..])
  {
  }

  lemma OverlayTwice(a: Bits, b: Bits, d: Bits)
    requires |a| == |b| <= |d|
    ensures Overlay(a, Overlay(b, d)) == Overlay(Xor(b, a), d)
  {
  }

  /** One step of division is one step of the register. */
  lemma DivideStep(p: Bits, r: Bits, d: Bits)
    requires |r| == |p| > 0 && |d| > |p|
    ensures Remainder(p, Overlay(r, d)) == Remainder(p, Overlay(Step(p, Flip(r, d[0])), d[1..]))
  {
    OverlayShift(r, d);
    OverlayTwice(p, Shift(Flip(r, d[0])), d[1..]);
  }

  /** The register after m, started at r, is the remainder of m * x^n + r * x^|m|. */
  lemma {:induction false} FeedDivides(p: Bits, r: Bits, m: Bits)
    requires |r| == |p| > 0
    ensures Feed(p, r, m) == Remainder(p, Overlay(r, m + Zeros(|p|)))
    decreases |m|
  {
    var d := m + Zeros(|p|);
    if m == [] {
      assert Overlay(r, d) == r;
    } else {
      assert d[1..] == m[1..] + Zeros(|p|);
      DivideStep(p, r, d);
      FeedDivides(p, Step(p, Flip(r, m[0])), m[1..]);
    }
  }

  // ----- linearity

  lemma StepLinear(p: Bits, a: Bits, b: Bits)
    requires |a| == |b| == |p| > 0
    ensures Step(p, Xor(a, b)) == Xor(Step(p, a), Step(p, b))
  {
    assert Shift(Xor(a, b)) == Xor(Shift(a), Shift(b));
  }

  lemma FlipXor(a: Bits, b: Bits, x: bool, y: bool)
    requires |a| == |b| > 0
    ensures Flip(Xor(a, b), x != y) == Xor(Flip(a, x), Flip(b, y))
  {
  }

  lemma {:induction false} FeedLinear(p: Bits, a: Bits, b: Bits, m: Bits, k: Bits)
    requires |a| == |b| == |p| > 0 && |m| == |k|
    ensures Feed(p, Xor(a, b), Xor(m, k)) == Xor(Feed(p, a, m), Feed(p, b, k))
    decreases |m|
  {
    if m == [] {
      assert Xor(m, k) == [];
    } else {
      var a1, b1 := Flip(a, m[0]), Flip(b, k[0]);
      FlipXor(a, b, m[0], k[0]);
      StepLinear(p, a1, b1);
      assert Xor(m, k)[1..] == Xor(m[1..], k[1..]);
      FeedLinear(p, Step(p, a1), Step(p, b1), m[1..], k[1..]);
    }
  }

  lemma {:induction false} FeedAppend(p: Bits, r: Bits, m: Bits, k: Bits)
    requires |r| == |p| > 0
    ensures Feed(p, r, m + k) == Feed(p, Feed(p, r, m), k)
    decreases |m|
  {
    if m == [] {
      assert m + k == k;
    } else {
      assert (m + k)[1..] == m[1..] + k;
      FeedAppend(p, Step(p, Flip(r, m[0])), m[1..], k);
    }
  }

  // ----- nothing is lost

  lemma StepInjective(p: Bits, a: Bits, b: Bits)
    requires |a| == |b| == |p| > 0 && p[|p| - 1] && Step(p, a) == Step(p, b)
    ensures a == b
  {
    var n := |p|;
    assert Step(p, a)[n - 1] == a[0] && Step(p, b)[n - 1] == b[0];
    forall i | 0 < i < n ensures a[i] == b[i] {
      assert Step(p, a)[i - 1] == (a[i] != (a[0] && p[i - 1]));
      assert Step(p, b)[i - 1] == (b[i] != (b[0] && p[i - 1]));
    }
  }

  lemma FlipInjective(a: Bits, b: Bits, x: bool)
    requires |a| == |b| > 0 && Flip(a, x) == Flip(b, x)
    ensures a == b
  {
    assert Flip(a, x)[0] == Flip(b, x)[0];
    assert Flip(a, x)[1..] == Flip(b, x)[1..];
    assert a == [a[0]] + a[1..] && b == [b[0]] + b[1..];
  }

  /** Registers that differ stay different, whatever is fed to both. */
  lemma {:induction false} FeedInjective(p: Bits, a: Bits, b: Bits, m: Bits)
    requires |a| == |b| == |p| > 0 && p[|p| - 1] && Feed(p, a, m) == Feed(p, b, m)
    ensures a == b
    decreases |m|
  {
    if m != [] {
      var a1, b1 := Flip(a, m[0]), Flip(b, m[0]);
      FeedInjective(p, Step(p, a1), Step(p, b1), m[1..]);
      StepInjective(p, a1, b1);
      FlipInjective(a, b, m[0]);
    }
  }

  /** d, no longer than the register, followed by zeros. */
  function Pad(d: Bits, n: nat): (r: Bits)
    requires |d| <= n
    ensures |r| == n
  {
    d + Zeros(n - |d|)
  }

  lemma StepAhead(p: Bits, r: Bits, d: Bits)
    requires |r| == |p| >= |d| > 0
    ensures Step(p, Xor(r, Pad(d, |p|))) == Xor(Step(p, Flip(r, d[0])), Pad(d[1..], |p|))
  {
    var ahead := [false] + d[1..] + Zeros(|p| - |d|);
    assert Xor(r, Pad(d, |p|)) == Xor(Flip(r, d[0]), ahead);
    StepLinear(p, Flip(r, d[0]), ahead);
    assert Step(p, ahead) == Pad(d[1..], |p|);
  }

  /** Feeding up to n bits one at a time is adding them at once and stepping that many times. */
  lemma {:induction false} FeedAtOnce(p: Bits, r: Bits, d: Bits)
    requires |r| == |p| >= |d| && |p| > 0
    ensures Feed(p, r, d) == Feed(p, Xor(r, Pad(d, |p|)), Zeros(|d|))
    decreases |d|
  {
    if d == [] {
      assert Xor(r, Pad(d, |p|)) == r;
    } else {
      var x := Xor(r, Pad(d, |p|));
      assert Zeros(|d|)[1..] == Zeros(|d| - 1) && Flip(x, false) == x;
      StepAhead(p, r, d);
      FeedAtOnce(p, Step(p, Flip(r, d[0])), d[1..]);
    }
  }

  /** Two different strings of at most n bits always leave different registers. */
  lemma WindowInjective(p: Bits, r: Bits, u: Bits, v: Bits)
    requires |r| == |p| >= |u| == |v| && |p| > 0 && p[|p| - 1]
    ensures Feed(p, r, u) == Feed(p, r, v) <==> u == v
  {
    if Feed(p, r, u) == Feed(p, r, v) {
      var a, b := Xor(r, Pad(u, |p|)), Xor(r, Pad(v, |p|));
      FeedAtOnce(p, r, u);
      FeedAtOnce(p, r, v);
      FeedInjective(p, a, b, Zeros(|u|));
      forall i | 0 <= i < |u| ensures u[i] == v[i] {
        assert a[i] == (r[i] != u[i]) && b[i] == (r[i] != v[i]);
      }
    }
  }

  lemma XorNot(r: Bits)
    ensures Xor(r, Pad(Not(r), |r|)) == Ones(|r|)
  {
  }

  /** Feeding a register its own complement leaves the same residue whatever it held, and nothing else does. */
  lemma Residue(p: Bits, r: Bits, d: Bits)
    requires |r| == |p| == |d| > 0 && p[|p| - 1]
    ensures Feed(p, r, d) == Feed(p, Ones(|p|), Zeros(|p|)) <==> d == Not(r)
  {
    var c := Not(r);
    FeedAtOnce(p, r, c);
    XorNot(r);
    WindowInjective(p, r, d, c);
  }

  // ----- eight bits at a time

  /** Zeros at the front of a register are shifted out and change nothing else. */
  lemma {:induction false} FeedShifts(p: Bits, q: Bits, k: nat)
    requires |p| == k + |q| > 0
    ensures Feed(p, Zeros(k) + q, Zeros(k)) == q + Zeros(k)
    decreases k
  {
    ShiftsOut(p, Zeros(k) + q, k);
    assert (Zeros(k) + q)[k..] == q;
  }

  lemma {:induction false} ShiftsOut(p: Bits, r: Bits, k: nat)
    requires |p| == |r| > 0 && k <= |p| && forall i :: 0 <= i < k ==> !r[i]
    ensures Feed(p, r, Zeros(k)) == r[k..] + Zeros(k)
    decreases k
  {
    if k == 0 {
      assert r[0..] + Zeros(0) == r;
    } else {
      assert Zeros(k)[1..] == Zeros(k - 1) && Flip(r, false) == r;
      ShiftsOut(p, Shift(r), k - 1);
      assert Shift(r)[k - 1..] + Zeros(k - 1) == r[k..] + Zeros(k);
    }
  }

  lemma CutAt(x: Bits, k: nat)
    requires k <= |x|
    ensures x == Xor(Pad(x[..k], |x|), Zeros(k) + x[k..])
  {
    var head, rest := Pad(x[..k], |x|), Zeros(k) + x[k..];
    forall i | 0 <= i < |x| ensures x[i] == (head[i] != rest[i]) {
      assert head[i] == (if i < k then x[i] else false);
      assert rest[i] == (if i < k then false else x[i]);
    }
  }

  /** Stepping k times depends on the first k bits alone; the rest is shifted along. */
  lemma FeedSplit(p: Bits, x: Bits, k: nat)
    requires |x| == |p| > 0 && k <= |p|
    ensures Feed(p, x, Zeros(k)) == Xor(Feed(p, Pad(x[..k], |p|), Zeros(k)), x[k..] + Zeros(k))
  {
    var head, rest := Pad(x[..k], |p|), Zeros(k) + x[k..];
    CutAt(x, k);
    assert Zeros(k) == Xor(Zeros(k), Zeros(k));
    FeedLinear(p, head, rest, Zeros(k), Zeros(k));
    FeedShifts(p, x[k..], k);
  }

  lemma BehindKept(r: Bits, x: Bits, d: Bits)
    requires |d| <= |r| && x == Xor(r, Pad(d, |r|))
    ensures x[|d|..] == r[|d|..]
  {
    forall i | |d| <= i < |r| ensures x[i] == r[i] {
      assert !Pad(d, |r|)[i];
    }
  }

  /** Bits fed one at a time, in terms of what they make of the front of the register and of what is behind it. */
  lemma FeedPart(p: Bits, r: Bits, x: Bits, d: Bits, k: nat)
    requires |p| == |r| > 0 && |d| == k <= |p| && x == Xor(r, Pad(d, |p|))
    ensures Feed(p, r, d) == Xor(Feed(p, Pad(x[..k], |p|), Zeros(k)), r[k..] + Zeros(k))
  {
    FeedAtOnce(p, r, d);
    var y := Feed(p, x, Zeros(k));
    assert Feed(p, r, d) == y;
    BehindKept(r, x, d);
    FeedSplit(p, x, k);
  }
}
