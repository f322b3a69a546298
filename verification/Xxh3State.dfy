/** The XXH3 streaming state. */
module Xxh3State {
  import opened Machine
  import opened Stripes
  import opened Xxh3Engine

  const BUFFER_SIZE: nat := 256
  const BUFFER_STRIPES: nat := 4

  /** The last 64 bytes of the buffer are the ones before position d. */
  ghost predicate KeepsLast(buf: Bytes, data: Bytes, d: nat) {
    |buf| == BUFFER_SIZE && STRIPE <= d <= |data| && buf[192..] == data[d - STRIPE..d]
  }

  /**
   * The n bytes after position d are buffered. Once stripes have been consumed at least one byte is, and where it has
   * not been overwritten the end of the buffer still holds the bytes before d.
   */
  ghost predicate Buffered(data: Bytes, d: nat, buf: Bytes, n: nat) {
    && |buf| == BUFFER_SIZE && n <= BUFFER_SIZE && d + n == |data| && data[d..] == buf[..n]
    && (d > 0 ==> n > 0 && d >= STRIPE && |data| > BUFFER_SIZE)
    && (d > 0 && n <= 192 ==> buf[192..] == data[d - STRIPE..d])
    && (d > 0 && n > 192 ==> buf[n..] == data[d + n - BUFFER_SIZE..d])
  }

  lemma SliceOfRest(all: Bytes, d: nat, a: nat, b: nat)
    requires a <= b && d + b <= |all|
    ensures all[d..][a..b] == all[d + a..d + b]
  {
  }

  /** Fill the buffer up and consume it, when anything is buffered. */
  method DrainBuffer<A(!new), H(!new)>(k: Kernel<A, H>, secret: Bytes, acc0: A, soFar0: nat, buffer: array<bv8>, n: nat,
      input: Bytes, ghost all: Bytes, ghost d: nat) returns (acc: A, soFar: nat, p: nat, ghost d': nat)
    requires Absorbed(k, secret, all, d, Lane(acc0, soFar0)) && soFar0 < Per(secret)
    requires buffer.Length == BUFFER_SIZE && n <= BUFFER_SIZE < n + |input| && all[d..] == buffer[..n] + input
    requires n == 0 ==> d == 0
    modifies buffer
    ensures Absorbed(k, secret, all, d', Lane(acc, soFar)) && soFar < Per(secret)
    ensures p < |input| && all[d'..] == input[p..]
    ensures if d' > 0 then KeepsLast(buffer[..], all, d') else |input| - p > BUFFER_SIZE
  {
    acc, soFar, p, d' := acc0, soFar0, 0, d;
    if n > 0 {
      p := BUFFER_SIZE - n;
      FillStripe(buffer, n, input);
      acc, soFar := ConsumeStripes(k, acc, soFar, buffer[..], BUFFER_STRIPES, secret);
      assert buffer[..] == all[d..][..BUFFER_SIZE] && buffer[..][..STRIPE * BUFFER_STRIPES] == buffer[..];
      AbsorbedOn(k, secret, all, d, Lane(acc0, soFar0), BUFFER_STRIPES, Lane(acc, soFar));
      d' := d + BUFFER_SIZE;
      assert all[d'..] == all[d..][BUFFER_SIZE..];
      SliceOfRest(all, d, 192, BUFFER_SIZE);
      assert buffer[..][192..] == all[d..][..BUFFER_SIZE][192..] == all[d..][192..BUFFER_SIZE];
    }
  }

  /** memcpy of the 64 bytes before position q of the input to the end of the buffer. */
  method KeepLast(buffer: array<bv8>, input: Bytes, q: nat, ghost all: Bytes, ghost d: nat)
    requires buffer.Length == BUFFER_SIZE && STRIPE <= q <= |input| && STRIPE <= d <= |all|
    requires input[q - STRIPE..q] == all[d - STRIPE..d]
    modifies buffer
    ensures KeepsLast(buffer[..], all, d)
  {
    CopyIn(buffer, BUFFER_SIZE - STRIPE, input[q - STRIPE..q]);
    assert buffer[..][192..] == buffer[..256][192..];
  }

  /** More than a block is left: finish the current block, take whole ones, then the stripes of a last partial one. */
  method ConsumeBlocks<A(!new), H(!new)>(k: Kernel<A, H>, secret: Bytes, acc0: A, soFar0: nat, input: Bytes)
      returns (acc: A, soFar: nat, p: nat, ghost n: nat)
    requires |secret| >= SECRET_SIZE_MIN && soFar0 < Per(secret) && |input| > STRIPE * Per(secret)
    ensures p == STRIPE * n && STRIPE <= p < |input| <= p + STRIPE
    ensures Lane(acc, soFar) == Absorb(k, secret, Lane(acc0, soFar0), input[..p]) && soFar < Per(secret)
  {
    var per := Per(secret);
    var nbStripes := (|input| - 1) / STRIPE;
    ghost var s := Lane(acc0, soFar0);
    n := nbStripes;
    var toEnd := per - soFar0;
    acc := Accumulate(k, acc0, input, secret, soFar0 * 8, toEnd);
    acc := k.scramble(acc, Slice(secret, |secret| - STRIPE, STRIPE));
    AccAbsorbs(k, secret, s, input, toEnd);
    p := toEnd * STRIPE;
    nbStripes := nbStripes - toEnd;
    while nbStripes >= per
      invariant nbStripes >= 0 && p % STRIPE == 0 && 0 < p && p + STRIPE * nbStripes == STRIPE * n < |input| <= STRIPE * n + STRIPE
      invariant Lane(acc, 0) == Absorb(k, secret, s, input[..p])
    {
      ghost var before := p;
      acc := AccumulateBlock(k, acc, input[p..], secret);
      AbsorbAppend(k, secret, s, input[..p], input[p..][..STRIPE * per]);
      p := p + per * STRIPE;
      nbStripes := nbStripes - per;
      assert input[..p] == input[..before] + input[before..][..STRIPE * per];
    }
    ghost var before, mid := p, Lane(acc, 0);
    acc := Accumulate(k, acc, input[p..], secret, 0, nbStripes);
    AccAbsorbs(k, secret, mid, input[p..], nbStripes);
    AbsorbAppend(k, secret, s, input[..p], input[p..][..STRIPE * nbStripes]);
    p := p + nbStripes * STRIPE;
    assert input[..p] == input[..before] + input[before..][..STRIPE * nbStripes];
    soFar := nbStripes;
  }

  /** At most a block is left: take it 256 bytes at a time while more than that remains. */
  method ConsumeChunks<A(!new), H(!new)>(k: Kernel<A, H>, secret: Bytes, acc0: A, soFar0: nat, input: Bytes)
      returns (acc: A, soFar: nat, p: nat, ghost n: nat)
    requires |secret| >= SECRET_SIZE_MIN && soFar0 < Per(secret) && |input| > BUFFER_SIZE
    ensures p == STRIPE * n && STRIPE <= p < |input| <= p + BUFFER_SIZE
    ensures Lane(acc, soFar) == Absorb(k, secret, Lane(acc0, soFar0), input[..p]) && soFar < Per(secret)
  {
    ghost var s := Lane(acc0, soFar0);
    acc, soFar, p, n := acc0, soFar0, 0, 0;
    assert input[..0] == [];
    while |input| - p > BUFFER_SIZE
      invariant p == STRIPE * n < |input| && (p > 0 || |input| > BUFFER_SIZE)
      invariant Lane(acc, soFar) == Absorb(k, secret, s, input[..p]) && soFar < Per(secret)
    {
      ghost var before := p;
      acc, soFar := ConsumeStripes(k, acc, soFar, input[p..], BUFFER_STRIPES, secret);
      AbsorbAppend(k, secret, s, input[..p], input[p..][..BUFFER_SIZE]);
      p, n := p + BUFFER_SIZE, n + BUFFER_STRIPES;
      assert input[..p] == input[..before] + input[before..][..BUFFER_SIZE];
    }
  }

  /** Consume input per blocks or per 256 bytes, or leave it all when it fits the buffer. */
  method ConsumeWhole<A(!new), H(!new)>(k: Kernel<A, H>, secret: Bytes, acc0: A, soFar0: nat, input: Bytes)
      returns (acc: A, soFar: nat, p: nat, ghost n: nat)
    requires |secret| >= SECRET_SIZE_MIN && soFar0 < Per(secret) && input != []
    ensures p == STRIPE * n && p < |input| <= p + BUFFER_SIZE
    ensures p == 0 ==> acc == acc0 && soFar == soFar0
    ensures Lane(acc, soFar) == Absorb(k, secret, Lane(acc0, soFar0), input[..p]) && soFar < Per(secret)
  {
    if |input| > Per(secret) * STRIPE {
      acc, soFar, p, n := ConsumeBlocks(k, secret, acc0, soFar0, input);
    } else if |input| > BUFFER_SIZE {
      acc, soFar, p, n := ConsumeChunks(k, secret, acc0, soFar0, input);
    } else {
      acc, soFar, p, n := acc0, soFar0, 0, 0;
      assert input[..0] == [];
    }
  }

  /** What XXH3_update does once the buffer is empty: consume all but the last bytes, which it buffers. */
  method ConsumeInput<A(!new), H(!new)>(k: Kernel<A, H>, secret: Bytes, acc0: A, soFar0: nat, buffer: array<bv8>,
      input: Bytes, ghost all: Bytes, ghost d: nat) returns (acc: A, soFar: nat, n: nat, ghost d': nat)
    requires Absorbed(k, secret, all, d, Lane(acc0, soFar0)) && soFar0 < Per(secret)
    requires buffer.Length == BUFFER_SIZE < |all| && all[d..] == input && input != []
    requires if d > 0 then KeepsLast(buffer[..], all, d) else |input| > BUFFER_SIZE
    modifies buffer
    ensures Absorbed(k, secret, all, d', Lane(acc, soFar)) && soFar < Per(secret)
    ensures d' > 0 && Buffered(all, d', buffer[..], n)
  {
    ghost var m;
    var p;
    acc, soFar, p, m := ConsumeWhole(k, secret, acc0, soFar0, input);
    RestAfter(all, d, input, p);
    d' := d + p;
    if p > 0 {
      AbsorbedOn(k, secret, all, d, Lane(acc0, soFar0), m, Lane(acc, soFar));
      KeepLast(buffer, input, p, all, d');
    }
    n := |input| - p;
    FillFront(buffer, input[p..], all, d');
  }

  lemma RestAfter(all: Bytes, d: nat, input: Bytes, p: nat)
    requires d <= |all| && all[d..] == input && p <= |input|
    ensures d + p <= |all| && all[d + p..] == input[p..]
    ensures p >= STRIPE ==> all[d + p - STRIPE..d + p] == input[p - STRIPE..p]
  {
    if p >= STRIPE {
      SliceOfRest(all, d, p - STRIPE, p);
    }
  }

  /** memcpy of the rest to the front of the buffer. */
  method FillFront(buffer: array<bv8>, rest: Bytes, ghost all: Bytes, ghost d: nat)
    requires KeepsLast(buffer[..], all, d) && all[d..] == rest && 0 < |rest| <= BUFFER_SIZE < |all|
    modifies buffer
    ensures Buffered(all, d, buffer[..], |rest|)
  {
    ghost var before := buffer[..];
    CopyIn(buffer, 0, rest);
    ghost var n, after := |rest|, buffer[..];
    assert after[n..] == before[n..];
    if n <= 192 {
      assert after[192..] == after[n..][192 - n..] == before[192..];
    } else {
      assert after[n..] == before[192..][n - 192..];
    }
  }

  /** Input that fits is appended to the buffer. */
  lemma BufferedAppend(data: Bytes, d: nat, buf: Bytes, n: nat, input: Bytes, buf': Bytes)
    requires Buffered(data, d, buf, n) && n + |input| <= BUFFER_SIZE == |buf'|
    requires buf'[..n + |input|] == buf[..n] + input && buf'[n + |input|..] == buf[n + |input|..]
    ensures Buffered(data + input, d, buf', n + |input|)
  {
    var all, m := data + input, n + |input|;
    assert all[d..] == data[d..] + input;
    if d > 0 {
      if m <= 192 {
        assert buf'[192..] == buf'[m..][192 - m..] == buf[192..];
        assert all[d - STRIPE..d] == data[d - STRIPE..d];
      } else if n <= 192 {
        assert buf[m..] == buf[192..][m - 192..] == data[d - STRIPE..d][m - 192..];
        assert data[d - STRIPE..d][m - 192..] == all[d + m - BUFFER_SIZE..d];
      } else {
        assert buf[m..] == buf[n..][m - n..] == data[d + n - BUFFER_SIZE..d][m - n..];
        assert data[d + n - BUFFER_SIZE..d][m - n..] == all[d + m - BUFFER_SIZE..d];
      }
    }
  }

  /** XXH3_digest_long: on a copy of the accumulators, with the last stripe rebuilt from both ends of the buffer. */
  method DigestLong<A(!new), H(!new)>(k: Kernel<A, H>, secret: Bytes, acc0: A, soFar0: nat, buffer: array<bv8>, n: nat,
      ghost data: Bytes, ghost d: nat) returns (acc: A)
    requires Absorbed(k, secret, data, d, Lane(acc0, soFar0)) && soFar0 < Per(secret)
    requires buffer.Length == BUFFER_SIZE && Buffered(data, d, buffer[..], n) && |data| > MIDSIZE_MAX
    ensures acc == LongAcc(k, secret, data)
  {
    var lastSecret := Slice(secret, |secret| - STRIPE - LASTACC_START, STRIPE);
    if n >= STRIPE {
      var nbStripes := (n - 1) / STRIPE;
      ghost var soFar;
      acc, soFar := ConsumeStripes(k, acc0, soFar0, buffer[..], nbStripes, secret);
      assert buffer[..][..STRIPE * nbStripes] == data[d..][..STRIPE * nbStripes];
      AbsorbedOn(k, secret, data, d, Lane(acc0, soFar0), nbStripes, Lane(acc, soFar));
      CutUnique(d + STRIPE * nbStripes, |data|);
      SliceOfRest(data, d, n - STRIPE, n);
      assert buffer[n - STRIPE..n] == buffer[..n][n - STRIPE..n] == data[|data| - STRIPE..];
      acc := k.accumulate512(acc, buffer[n - STRIPE..n], lastSecret);
    } else {
      var catchup := STRIPE - n;
      var lastStripe := buffer[BUFFER_SIZE - catchup..] + buffer[..n];
      CutUnique(d, |data|);
      assert lastStripe == data[|data| - STRIPE..] by {
        assert buffer[BUFFER_SIZE - catchup..] == buffer[..][192..][n..] == data[d - STRIPE..d][n..];
        assert data[|data| - STRIPE..] == data[|data| - STRIPE..d] + data[d..];
      }
      acc := k.accumulate512(acc0, lastStripe, lastSecret);
    }
  }

  /** The hash a state is set up to compute. */
  ghost function Configured<A(!new), H(!new)>(k: Kernel<A, H>, useSeed: bool, seed: bv64, secret: Bytes, data: Bytes): H
    requires Proper(k) && |secret| >= SECRET_SIZE_MIN
  {
    if useSeed then Hash(k, data, k.defaultSecret, seed, secret) else Hash(k, data, secret, 0, secret)
  }

  /** Accumulators, stripe count and buffer are what the data consumed so far makes them. */
  ghost predicate Streaming<A(!new), H(!new)>(k: Kernel<A, H>, secret: Bytes, data: Bytes, d: nat, s: Lane<A>, buf: Bytes, n: nat) {
    Absorbed(k, secret, data, d, s) && s.soFar < Per(secret) && Buffered(data, d, buf, n)
  }

  lemma StreamingStart<A(!new), H(!new)>(k: Kernel<A, H>, secret: Bytes, buf: Bytes)
    requires |secret| >= SECRET_SIZE_MIN && |buf| == BUFFER_SIZE
    ensures Streaming(k, secret, [], 0, Lane(k.init, 0), buf, 0)
  {
    AbsorbedStart(k, secret, []);
  }

  lemma AbsorbedExtend<A(!new), H(!new)>(k: Kernel<A, H>, secret: Bytes, data: Bytes, input: Bytes, p: nat, s: Lane<A>)
    requires Absorbed(k, secret, data, p, s)
    ensures Absorbed(k, secret, data + input, p, s)
    ensures (data + input)[p..] == data[p..] + input
  {
    assert (data + input)[..p] == data[..p];
  }

  class State<A(!new), H(!new)> {
    const k: Kernel<A, H>
    var acc: A
    const customSecret: array<bv8>
    const buffer: array<bv8>
    var bufferedSize: nat
    var useSeed: bool
    var nbStripesSoFar: nat
    var totalLen: nat
    var nbStripesPerBlock: nat
    var secretLimit: nat
    var seed: bv64
    var extSecret: Option<Bytes>
    ghost var consumed: Bytes
    ghost var done: nat

    /** With no external secret and a seed, customSecret is the secret of that seed: what lets a reset keep it. */
    ghost predicate Inv()
      reads this, customSecret
    {
      && Proper(k) && buffer.Length == BUFFER_SIZE && customSecret.Length == SECRET_DEFAULT_SIZE && buffer != customSecret
      && (extSecret.None? && seed != 0 ==> customSecret[..] == k.derive(seed))
    }

    function Secret(): Bytes
      reads this, customSecret
    {
      if extSecret.None? then customSecret[..] else extSecret.value
    }

    /** Ready to hash: a proper secret, and accumulators and buffer that are what the bytes consumed make them. */
    ghost predicate Ready()
      reads this, customSecret, buffer
    {
      && Inv() && |Secret()| >= SECRET_SIZE_MIN
      && secretLimit == |Secret()| - STRIPE && nbStripesPerBlock == Per(Secret())
      && totalLen == |consumed| % 0x1_0000_0000_0000_0000
      && Streaming(k, Secret(), consumed, done, Lane(acc, nbStripesSoFar), buffer[..], bufferedSize)
    }

    /** XXH3_createState: only the seed is set. */
    constructor (k: Kernel<A, H>)
      requires Proper(k)
      ensures Inv() && this.k == k && fresh(buffer) && fresh(customSecret)
    {
      this.k := k;
      customSecret, buffer := new bv8[SECRET_DEFAULT_SIZE](_ => 0), new bv8[BUFFER_SIZE](_ => 0);
      acc, bufferedSize, useSeed, nbStripesSoFar, totalLen := k.init, 0, false, 0, 0;
      nbStripesPerBlock, secretLimit, seed, extSecret := 0, 0, 0, None;
      consumed, done := [], 0;
    }

    /** XXH3_reset_internal; a size under 64 wraps around. */
    method ResetInternal(seed: bv64, secret: Option<Bytes>, secretSize: SizeT)
      requires Proper(k) && buffer.Length == BUFFER_SIZE && customSecret.Length == SECRET_DEFAULT_SIZE && buffer != customSecret
      requires secret.None? && seed != 0 ==> customSecret[..] == k.derive(seed)
      modifies this
      ensures Inv() && this.seed == seed && extSecret == secret && useSeed == (seed != 0) && consumed == []
      ensures |Secret()| == secretSize >= SECRET_SIZE_MIN ==> Ready()
    {
      ghost var own, held := customSecret[..], buffer[..];
      bufferedSize, nbStripesSoFar, totalLen := 0, 0, 0;
      acc := k.init;
      this.seed, useSeed, extSecret := seed, seed != 0, secret;
      secretLimit := WrapSub(secretSize, STRIPE);
      nbStripesPerBlock := secretLimit / 8;
      consumed, done := [], 0;
      assert customSecret[..] == own && buffer[..] == held;
      if |Secret()| == secretSize >= SECRET_SIZE_MIN {
        StreamingStart(k, Secret(), held);
        assert nbStripesPerBlock == Per(Secret());
      }
    }

    /** XXH3_64bits_reset */
    method Reset()
      requires Inv()
      modifies this
      ensures Ready() && consumed == [] && seed == 0 && !useSeed && extSecret == Some(k.defaultSecret)
    {
      ResetInternal(0, Some(k.defaultSecret), SECRET_DEFAULT_SIZE);
    }

    /** XXH3_64bits_reset_withSecret: false, the error code, for no secret or one too short. */
    method ResetWithSecret(secret: Option<Bytes>, secretSize: SizeT) returns (ok: bool)
      requires Inv() && (secret.Some? ==> secretSize == |secret.value|)
      modifies this
      ensures Inv() && seed == 0 && !useSeed && extSecret == secret && consumed == []
      ensures ok == (secret.Some? && secretSize >= SECRET_SIZE_MIN)
      ensures ok ==> Ready()
    {
      ResetInternal(0, secret, secretSize);
      if secret.None? { return false; }
      if secretSize < SECRET_SIZE_MIN { return false; }
      return true;
    }

    /** XXH3_64bits_reset_withSeed: the derived secret is only written when the state does not already hold it. */
    method ResetWithSeed(newSeed: bv64)
      requires Inv()
      modifies this, customSecret
      ensures Ready() && consumed == [] && seed == newSeed && useSeed == (newSeed != 0)
      ensures Secret() == if newSeed == 0 then k.defaultSecret else k.derive(newSeed)
    {
      if newSeed == 0 {
        Reset();
      } else {
        if newSeed != seed || extSecret.Some? {
          var derived := k.derive(newSeed);
          CopyIn(customSecret, 0, derived);
          assert customSecret[..] == customSecret[..SECRET_DEFAULT_SIZE] == derived;
        }
        ResetInternal(newSeed, None, SECRET_DEFAULT_SIZE);
      }
    }

    /** XXH3_64bits_reset_withSecretandSeed; on error nothing is touched. */
    method ResetWithSecretAndSeed(secret: Option<Bytes>, secretSize: SizeT, newSeed: bv64) returns (ok: bool)
      requires Inv() && (secret.Some? ==> secretSize == |secret.value|)
      modifies this
      ensures Inv() && ok == (secret.Some? && secretSize >= SECRET_SIZE_MIN)
      ensures ok ==> Ready() && consumed == [] && seed == newSeed && useSeed && extSecret == secret
    {
      if secret.None? { return false; }
      if secretSize < SECRET_SIZE_MIN { return false; }
      ResetInternal(newSeed, secret, secretSize);
      useSeed := true;
      return true;
    }

    /** XXH3_64bits_update */
    method Update(input: Bytes)
      requires Ready()
      modifies this`acc, this`bufferedSize, this`nbStripesSoFar, this`totalLen, this`consumed, this`done, buffer
      ensures Ready() && consumed == old(consumed) + input
    {
      ghost var before := consumed;
      TotalAdd(|before|, |input|);
      totalLen := (totalLen + |input|) % 0x1_0000_0000_0000_0000;
      consumed := before + input;
      acc, nbStripesSoFar, bufferedSize, done :=
        UpdateStream(k, Secret(), acc, nbStripesSoFar, buffer, bufferedSize, input, before, done);
    }

    /** XXH3_64bits_digest; the state is left as it is. */
    method Digest() returns (r: H)
      requires Ready()
      ensures |consumed| < 0x1_0000_0000_0000_0000 ==>
        r == Configured(k, useSeed, seed, Secret(), consumed)
    {
      if totalLen > MIDSIZE_MAX {
        TotalSmall(|consumed|);
        var a := DigestLong(k, Secret(), acc, nbStripesSoFar, buffer, bufferedSize, consumed, done);
        r := k.merge(a, Secret(), totalLen);
      } else {
        r := DigestShort();
      }
    }

    /** What has come so far is short, and all of it in the buffer. */
    method DigestShort() returns (r: H)
      requires Ready() && totalLen <= MIDSIZE_MAX
      ensures |consumed| < 0x1_0000_0000_0000_0000 ==>
        r == Configured(k, useSeed, seed, Secret(), consumed)
    {
      assert |consumed| == totalLen ==> buffer[..totalLen] == consumed;
      if useSeed {
        r := OneShot(k, buffer[..totalLen], k.defaultSecret, seed, k.defaultSecret);
      } else {
        r := OneShot(k, buffer[..totalLen], Secret(), 0, Secret());
      }
    }
  }

  /** XXH3_update but for the running total: input that fits is buffered, other input is consumed. */
  method UpdateStream<A(!new), H(!new)>(k: Kernel<A, H>, secret: Bytes, acc0: A, soFar0: nat, buffer: array<bv8>, n0: nat,
      input: Bytes, ghost data: Bytes, ghost d: nat) returns (acc: A, soFar: nat, n: nat, ghost d': nat)
    requires Streaming(k, secret, data, d, Lane(acc0, soFar0), buffer[..], n0)
    modifies buffer
    ensures Streaming(k, secret, data + input, d', Lane(acc, soFar), buffer[..], n)
  {
    AbsorbedExtend(k, secret, data, input, d, Lane(acc0, soFar0));
    if n0 + |input| <= BUFFER_SIZE {
      ghost var buf := buffer[..];
      CopyIn(buffer, n0, input);
      BufferedAppend(data, d, buf, n0, input, buffer[..]);
      acc, soFar, n, d' := acc0, soFar0, n0 + |input|, d;
    } else {
      acc, soFar, n, d' := UpdateLarge(k, secret, acc0, soFar0, buffer, n0, input, data + input, d);
    }
  }

  /** The part of XXH3_update for input that overfills the buffer. */
  method UpdateLarge<A(!new), H(!new)>(k: Kernel<A, H>, secret: Bytes, acc0: A, soFar0: nat, buffer: array<bv8>, n0: nat,
      input: Bytes, ghost all: Bytes, ghost d: nat) returns (acc: A, soFar: nat, n: nat, ghost d': nat)
    requires Absorbed(k, secret, all, d, Lane(acc0, soFar0)) && soFar0 < Per(secret)
    requires buffer.Length == BUFFER_SIZE && n0 <= BUFFER_SIZE < n0 + |input| && all[d..] == buffer[..n0] + input
    requires n0 == 0 ==> d == 0
    modifies buffer
    ensures Absorbed(k, secret, all, d', Lane(acc, soFar)) && soFar < Per(secret)
    ensures Buffered(all, d', buffer[..], n)
  {
    var p;
    acc, soFar, p, d' := DrainBuffer(k, secret, acc0, soFar0, buffer, n0, input, all, d);
    acc, soFar, n, d' := ConsumeInput(k, secret, acc, soFar, buffer, input[p..], all, d');
  }

  lemma TotalAdd(before: nat, len: nat)
    ensures (before % 0x1_0000_0000_0000_0000 + len) % 0x1_0000_0000_0000_0000 == (before + len) % 0x1_0000_0000_0000_0000
  {
  }

  lemma TotalSmall(len: nat)
    ensures len % 0x1_0000_0000_0000_0000 <= len
  {
  }

  // ----- streaming and one-shot, in every mode

  datatype Mode = Default | WithSecret(secret: Bytes) | WithSeed(seed: bv64) | WithSecretAndSeed(secret: Bytes, seed: bv64)

  ghost predicate ModeOk(mode: Mode) {
    mode.WithSecret? || mode.WithSecretAndSeed? ==> SECRET_SIZE_MIN <= |mode.secret| <= SIZE_MAX
  }

  /** XXH3_64bits and its variants by their definitions. */
  ghost function Reference<A(!new), H(!new)>(k: Kernel<A, H>, mode: Mode, data: Bytes): H
    requires Proper(k) && ModeOk(mode)
  {
    match mode
    case Default => Hash(k, data, k.defaultSecret, 0, k.defaultSecret)
    case WithSecret(secret) => Hash(k, data, secret, 0, secret)
    case WithSeed(seed) => Hash(k, data, k.defaultSecret, seed, if seed == 0 then k.defaultSecret else k.derive(seed))
    case WithSecretAndSeed(secret, seed) => Hash(k, data, k.defaultSecret, seed, secret)
  }

  method ResetTo<A(!new), H(!new)>(state: State<A, H>, mode: Mode)
    requires state.Inv() && ModeOk(mode)
    modifies state, state.customSecret
    ensures state.Ready() && state.consumed == []
    ensures forall data: Bytes ::
      Configured(state.k, state.useSeed, state.seed, state.Secret(), data) == Reference(state.k, mode, data)
  {
    match mode
    case Default => state.Reset();
    case WithSecret(secret) => var ok := state.ResetWithSecret(Some(secret), |secret|);
    case WithSeed(seed) => state.ResetWithSeed(seed);
    case WithSecretAndSeed(secret, seed) => var ok := state.ResetWithSecretAndSeed(Some(secret), |secret|, seed);
  }

  /** For every earlier use of the state, every mode and every chunking, the digest is the one-shot hash. */
  method Stream<A(!new), H(!new)>(state: State<A, H>, mode: Mode, chunks: seq<Bytes>) returns (r: H)
    requires state.Inv() && ModeOk(mode)
    modifies state, state.customSecret, state.buffer
    ensures state.Inv()
    ensures |Concat(chunks)| < 0x1_0000_0000_0000_0000 ==> r == Reference(state.k, mode, Concat(chunks))
  {
    ResetTo(state, mode);
    UpdateAll(state, chunks);
    r := state.Digest();
  }

  method UpdateAll<A(!new), H(!new)>(state: State<A, H>, chunks: seq<Bytes>)
    requires state.Ready() && state.consumed == []
    modifies state, state.buffer
    ensures state.Ready() && state.consumed == Concat(chunks)
    ensures state.Secret() == old(state.Secret()) && state.useSeed == old(state.useSeed) && state.seed == old(state.seed)
  {
    for i := 0 to |chunks|
      invariant state.Ready() && state.consumed == Concat(chunks[..i])
      invariant state.Secret() == old(state.Secret()) && state.useSeed == old(state.useSeed) && state.seed == old(state.seed)
    {
      assert chunks[..i + 1][..i] == chunks[..i];
      state.Update(chunks[i]);
    }
    assert chunks[..|chunks|] == chunks;
  }

  /** XXH3_64bits, _withSecret, _withSeed and _withSecretandSeed. */
  method OneShotMode<A(!new), H(!new)>(k: Kernel<A, H>, mode: Mode, input: Bytes) returns (r: H)
    requires Proper(k) && ModeOk(mode)
    ensures r == Reference(k, mode, input)
  {
    match mode
    case Default =>
      r := OneShot(k, input, k.defaultSecret, 0, k.defaultSecret);
    case WithSecret(secret) =>
      r := OneShot(k, input, secret, 0, secret);
    case WithSeed(seed) =>
      r := OneShot(k, input, k.defaultSecret, seed, if seed == 0 then k.defaultSecret else k.derive(seed));
    case WithSecretAndSeed(secret, seed) =>
      if |input| <= MIDSIZE_MAX {
        r := OneShot(k, input, k.defaultSecret, seed, k.defaultSecret);
      } else {
        r := OneShot(k, input, secret, seed, secret);
      }
  }
}
