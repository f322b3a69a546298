/** The long-input engine of XXH3: blocks of stripes, scrambles, and the stripe kept for last. */
module Xxh3Engine {
  import opened Stripes

  const STRIPE: nat := 64
  const SECRET_SIZE_MIN: nat := 136
  const SECRET_DEFAULT_SIZE: nat := 192
  const MIDSIZE_MAX: nat := 240
  const LASTACC_START: nat := 7

  /**
   * What the streaming code takes for granted of the arithmetic: accumulators of type A, one stripe mixed into them
   * with 64 bytes of secret, the scramble at a block's end, the merge into a hash, the hashes of short inputs, the
   * default secret and the secret made from a seed.
   */
  datatype Kernel<!A, !H> = Kernel(init: A, accumulate512: (A, Bytes, Bytes) -> A, scramble: (A, Bytes) -> A,
    merge: (A, Bytes, nat) -> H, short: (Bytes, Bytes, bv64) -> H, defaultSecret: Bytes, derive: bv64 -> Bytes)

  ghost predicate Proper<A(!new), H(!new)>(k: Kernel<A, H>) {
    |k.defaultSecret| == SECRET_DEFAULT_SIZE && forall seed :: |k.derive(seed)| == SECRET_DEFAULT_SIZE
  }

  /** n bytes at offset i. */
  function Slice(b: Bytes, i: nat, n: nat): (r: Bytes)
    requires i + n <= |b|
    ensures |r| == n
  {
    b[i..i + n]
  }

  /** Stripes per block. */
  function Per(secret: Bytes): (r: nat)
    requires |secret| >= SECRET_SIZE_MIN
    ensures r >= 9
  {
    (|secret| - STRIPE) / 8
  }

  /** Accumulators and the number of stripes taken in the current block. */
  datatype Lane<A> = Lane(acc: A, soFar: nat)

  /**
   * The effect of one stripe: mix it in at its place in the secret; a full block is scrambled at once. There are never
   * more stripes than a block has.
   */
  function Step<A(!new), H(!new)>(k: Kernel<A, H>, secret: Bytes): (Lane<A>, Bytes) -> Lane<A>
    requires |secret| >= SECRET_SIZE_MIN
  {
    (s: Lane<A>, stripe: Bytes) =>
      if s.soFar >= Per(secret) then s else
      var acc := k.accumulate512(s.acc, stripe, Slice(secret, 8 * s.soFar, STRIPE));
      if s.soFar + 1 == Per(secret) then Lane(k.scramble(acc, Slice(secret, |secret| - STRIPE, STRIPE)), 0)
      else Lane(acc, s.soFar + 1)
  }

  /** The state after the whole stripes of data. */
  ghost function Absorb<A(!new), H(!new)>(k: Kernel<A, H>, secret: Bytes, s: Lane<A>, data: Bytes): Lane<A>
    requires |secret| >= SECRET_SIZE_MIN
  {
    Fold(Step(k, secret), s, data, STRIPE)
  }

  /** Where the last stripe of a long input takes over: the greatest multiple of 64 below its length. */
  function Cut(len: nat): nat
    requires len > 0
  {
    (len - 1) / STRIPE * STRIPE
  }

  /** The accumulators of a long input: every stripe before the cut, then the last 64 bytes, which may overlap them. */
  ghost function LongAcc<A(!new), H(!new)>(k: Kernel<A, H>, secret: Bytes, data: Bytes): A
    requires |secret| >= SECRET_SIZE_MIN && |data| > STRIPE
  {
    k.accumulate512(Absorb(k, secret, Lane(k.init, 0), data[..Cut(|data|)]).acc,
      data[|data| - STRIPE..], Slice(secret, |secret| - STRIPE - LASTACC_START, STRIPE))
  }

  /** XXH3 64-bit: short inputs by their own routines with one secret and a seed, long ones by the engine. */
  ghost function Hash<A(!new), H(!new)>(k: Kernel<A, H>, data: Bytes, shortSecret: Bytes, seed: bv64, longSecret: Bytes): H
    requires |shortSecret| >= SECRET_SIZE_MIN && |longSecret| >= SECRET_SIZE_MIN
  {
    if |data| <= MIDSIZE_MAX then k.short(data, shortSecret, seed)
    else k.merge(LongAcc(k, longSecret, data), longSecret, |data|)
  }

  // ----- XXH3_accumulate

  ghost function Acc<A(!new), H(!new)>(k: Kernel<A, H>, acc: A, input: Bytes, secret: Bytes, off: nat, n: nat): A
    requires STRIPE * n <= |input| && (n > 0 ==> off + 8 * (n - 1) + STRIPE <= |secret|)
  {
    if n == 0 then acc
    else k.accumulate512(Acc(k, acc, input, secret, off, n - 1),
           input[STRIPE * (n - 1)..STRIPE * n], Slice(secret, off + 8 * (n - 1), STRIPE))
  }

  method Accumulate<A(!new), H(!new)>(k: Kernel<A, H>, acc0: A, input: Bytes, secret: Bytes, off: nat, nbStripes: nat)
      returns (acc: A)
    requires STRIPE * nbStripes <= |input| && (nbStripes > 0 ==> off + 8 * (nbStripes - 1) + STRIPE <= |secret|)
    ensures acc == Acc(k, acc0, input, secret, off, nbStripes)
  {
    acc := acc0;
    for n := 0 to nbStripes
      invariant acc == Acc(k, acc0, input, secret, off, n)
    {
      acc := k.accumulate512(acc, input[n * STRIPE..n * STRIPE + STRIPE], Slice(secret, off + n * 8, STRIPE));
    }
  }

  lemma {:induction false} TailWhole(data: Bytes)
    requires |data| % STRIPE == 0
    ensures Tail(data, STRIPE) == []
    decreases |data|
  {
    if |data| >= STRIPE {
      TailWhole(data[STRIPE..]);
    }
  }

  /** Whole stripes can be absorbed in two goes. */
  lemma AbsorbAppend<A(!new), H(!new)>(k: Kernel<A, H>, secret: Bytes, s: Lane<A>, a: Bytes, b: Bytes)
    requires |secret| >= SECRET_SIZE_MIN && |a| % STRIPE == 0
    ensures Absorb(k, secret, s, a + b) == Absorb(k, secret, Absorb(k, secret, s, a), b)
  {
    TailWhole(a);
    FoldAppend(Step(k, secret), s, a, b, STRIPE);
    assert Tail(a, STRIPE) + b == b;
  }

  lemma AbsorbOne<A(!new), H(!new)>(k: Kernel<A, H>, secret: Bytes, s: Lane<A>, stripe: Bytes)
    requires |secret| >= SECRET_SIZE_MIN && |stripe| == STRIPE
    ensures Absorb(k, secret, s, stripe) == Step(k, secret)(s, stripe)
  {
    assert stripe[..STRIPE] == stripe && stripe[STRIPE..] == [];
    var t := Step(k, secret)(s, stripe);
    assert Fold(Step(k, secret), t, [], STRIPE) == t;
  }

  /** Accumulating n stripes inside a block is absorbing them, up to the scramble when they end it. */
  lemma {:induction false} AccAbsorbs<A(!new), H(!new)>(k: Kernel<A, H>, secret: Bytes, s: Lane<A>, input: Bytes, n: nat)
    requires |secret| >= SECRET_SIZE_MIN && STRIPE * n <= |input| && s.soFar < Per(secret) && s.soFar + n <= Per(secret)
    ensures var acc := Acc(k, s.acc, input, secret, 8 * s.soFar, n);
      Absorb(k, secret, s, input[..STRIPE * n]) ==
        if s.soFar + n == Per(secret) then Lane(k.scramble(acc, Slice(secret, |secret| - STRIPE, STRIPE)), 0)
        else Lane(acc, s.soFar + n)
    decreases n
  {
    if n > 0 {
      var a, b := input[..STRIPE * (n - 1)], input[STRIPE * (n - 1)..STRIPE * n];
      AccAbsorbs(k, secret, s, input, n - 1);
      AbsorbAppend(k, secret, s, a, b);
      assert input[..STRIPE * n] == a + b;
      AbsorbOne(k, secret, Absorb(k, secret, s, a), b);
    }
  }

  /** XXH3_consumeStripes: at most one block's end is passed. */
  method ConsumeStripes<A(!new), H(!new)>(k: Kernel<A, H>, acc0: A, soFar0: nat, input: Bytes, nbStripes: nat, secret: Bytes)
      returns (acc: A, soFar: nat)
    requires |secret| >= SECRET_SIZE_MIN && STRIPE * nbStripes <= |input|
    requires nbStripes <= Per(secret) && soFar0 < Per(secret)
    ensures Lane(acc, soFar) == Absorb(k, secret, Lane(acc0, soFar0), input[..STRIPE * nbStripes])
    ensures soFar < Per(secret)
  {
    var per := Per(secret);
    ghost var s := Lane(acc0, soFar0);
    if per - soFar0 <= nbStripes {
      var toEnd := per - soFar0;
      var after := nbStripes - toEnd;
      acc := Accumulate(k, acc0, input, secret, soFar0 * 8, toEnd);
      acc := k.scramble(acc, Slice(secret, |secret| - STRIPE, STRIPE));
      AccAbsorbs(k, secret, s, input, toEnd);
      ghost var mid := Lane(acc, 0);
      var rest := input[toEnd * STRIPE..];
      acc := Accumulate(k, acc, rest, secret, 0, after);
      AccAbsorbs(k, secret, mid, rest, after);
      AbsorbAppend(k, secret, s, input[..STRIPE * toEnd], rest[..STRIPE * after]);
      assert input[..STRIPE * nbStripes] == input[..STRIPE * toEnd] + rest[..STRIPE * after];
      soFar := after;
    } else {
      acc := Accumulate(k, acc0, input, secret, soFar0 * 8, nbStripes);
      AccAbsorbs(k, secret, s, input, nbStripes);
      soFar := soFar0 + nbStripes;
    }
  }

  // ----- XXH3_hashLong_64b_internal

  /** A whole block. */
  method AccumulateBlock<A(!new), H(!new)>(k: Kernel<A, H>, acc0: A, input: Bytes, secret: Bytes) returns (acc: A)
    requires |secret| >= SECRET_SIZE_MIN && STRIPE * Per(secret) <= |input|
    ensures Lane(acc, 0) == Absorb(k, secret, Lane(acc0, 0), input[..STRIPE * Per(secret)])
  {
    acc := Accumulate(k, acc0, input, secret, 0, Per(secret));
    acc := k.scramble(acc, Slice(secret, |secret| - STRIPE, STRIPE));
    AccAbsorbs(k, secret, Lane(acc0, 0), input, Per(secret));
  }

  lemma BlockFits(n: nat, nb: nat, block: nat, len: nat)
    requires n < nb && nb * block <= len
    ensures n * block + block == (n + 1) * block <= nb * block
  {
  }

  /** The number of whole blocks that leave at least one byte. */
  method CountBlocks(len: nat, block: nat) returns (nb: nat)
    requires block > 0 && len > 0
    ensures nb * block < len <= nb * block + block
  {
    nb := (len - 1) / block;
  }

  lemma CutUnique(q: nat, len: nat)
    requires q % STRIPE == 0 && q < len <= q + STRIPE
    ensures q == Cut(len)
  {
  }

  /** The first p bytes, a whole number of stripes, have been absorbed from the start. */
  ghost predicate Absorbed<A(!new), H(!new)>(k: Kernel<A, H>, secret: Bytes, data: Bytes, p: nat, s: Lane<A>) {
    && |secret| >= SECRET_SIZE_MIN && p <= |data| && p % STRIPE == 0
    && s == Absorb(k, secret, Lane(k.init, 0), data[..p])
  }

  lemma AbsorbedOn<A(!new), H(!new)>(k: Kernel<A, H>, secret: Bytes, data: Bytes, p: nat, s: Lane<A>, n: nat, s': Lane<A>)
    requires Absorbed(k, secret, data, p, s) && p + STRIPE * n <= |data|
    requires s' == Absorb(k, secret, s, data[p..][..STRIPE * n])
    ensures Absorbed(k, secret, data, p + STRIPE * n, s')
  {
    AbsorbAppend(k, secret, Lane(k.init, 0), data[..p], data[p..][..STRIPE * n]);
    assert data[..p + STRIPE * n] == data[..p] + data[p..][..STRIPE * n];
  }

  lemma AbsorbedStart<A(!new), H(!new)>(k: Kernel<A, H>, secret: Bytes, data: Bytes)
    requires |secret| >= SECRET_SIZE_MIN
    ensures Absorbed(k, secret, data, 0, Lane(k.init, 0))
  {
    assert data[..0] == [];
  }

  /** The last, partial block and the last stripe. */
  method HashLongEnd<A(!new), H(!new)>(k: Kernel<A, H>, acc0: A, input: Bytes, p: nat, secret: Bytes) returns (acc: A)
    requires Absorbed(k, secret, input, p, Lane(acc0, 0)) && p < |input| <= p + STRIPE * Per(secret) && |input| > STRIPE
    ensures acc == LongAcc(k, secret, input)
  {
    var nbStripes := ((|input| - 1) - p) / STRIPE;
    acc := Accumulate(k, acc0, input[p..], secret, 0, nbStripes);
    AccAbsorbs(k, secret, Lane(acc0, 0), input[p..], nbStripes);
    AbsorbedOn(k, secret, input, p, Lane(acc0, 0), nbStripes, Lane(acc, nbStripes));
    CutUnique(p + STRIPE * nbStripes, |input|);
    acc := k.accumulate512(acc, input[|input| - STRIPE..], Slice(secret, |secret| - STRIPE - LASTACC_START, STRIPE));
  }

  method HashLong<A(!new), H(!new)>(k: Kernel<A, H>, input: Bytes, secret: Bytes) returns (acc: A)
    requires |secret| >= SECRET_SIZE_MIN && |input| > STRIPE
    ensures acc == LongAcc(k, secret, input)
  {
    var per := Per(secret);
    var blockLen := STRIPE * per;
    var nbBlocks := CountBlocks(|input|, blockLen);
    acc := k.init;
    AbsorbedStart(k, secret, input);
    var p := 0;
    for n := 0 to nbBlocks
      invariant p == n * blockLen && Absorbed(k, secret, input, p, Lane(acc, 0))
    {
      BlockFits(n, nbBlocks, blockLen, |input|);
      ghost var before := acc;
      acc := AccumulateBlock(k, acc, input[p..], secret);
      AbsorbedOn(k, secret, input, p, Lane(before, 0), per, Lane(acc, 0));
      p := p + blockLen;
    }
    acc := HashLongEnd(k, acc, input, p, secret);
  }

  /** XXH3_64bits_internal */
  method OneShot<A(!new), H(!new)>(k: Kernel<A, H>, input: Bytes, shortSecret: Bytes, seed: bv64, longSecret: Bytes)
      returns (r: H)
    requires |shortSecret| >= SECRET_SIZE_MIN && |longSecret| >= SECRET_SIZE_MIN
    ensures r == Hash(k, input, shortSecret, seed, longSecret)
  {
    if |input| <= MIDSIZE_MAX {
      r := k.short(input, shortSecret, seed);
    } else {
      var acc := HashLong(k, input, longSecret);
      r := k.merge(acc, longSecret, |input|);
    }
  }
}
