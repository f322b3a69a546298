/** XXH64 and its streaming state. */
module Xxh64 {
  import opened Stripes
  import opened XxhStriped

  const PRIME64_1: bv64 := 0x9E3779B185EBCA87
  const PRIME64_2: bv64 := 0xC2B2AE3D27D4EB4F
  const PRIME64_3: bv64 := 0x165667B19E3779F9
  const PRIME64_4: bv64 := 0x85EBCA77C2B2AE63
  const PRIME64_5: bv64 := 0x27D4EB2F165667C5

  datatype Lanes = Lanes(v1: bv64, v2: bv64, v3: bv64, v4: bv64)

  function Rotl(x: bv64, r: bv64): bv64
    requires 0 < r < 64
  {
    (x << r) | (x >> (64 - r))
  }

  /** n <= 8 bytes at offset i, little end first. */
  function ReadLE(data: Bytes, i: nat, n: nat): bv64
    requires n <= 8 && i + n <= |data|
    decreases n
  {
    if n == 0 then 0 else (data[i] as bv64) | (ReadLE(data, i + 1, n - 1) << 8)
  }

  function ReadLE64(data: Bytes, i: nat): bv64
    requires i + 8 <= |data|
  {
    ReadLE(data, i, 8)
  }

  function ReadLE32(data: Bytes, i: nat): bv64
    requires i + 4 <= |data|
  {
    ReadLE(data, i, 4)
  }

  /** n modulo 2^64. */
  function Word(n: nat): bv64 {
    if n < 0x1_0000_0000_0000_0000 then n as bv64 else Word(n - 0x1_0000_0000_0000_0000)
  }

  function AddLen(h: bv64, n: nat): bv64 { h + Word(n) }

  function Round(acc: bv64, input: bv64): bv64 {
    Rotl(acc + input * PRIME64_2, 31) * PRIME64_1
  }

  function MergeRound(acc: bv64, val: bv64): bv64 {
    (acc ^ Round(0, val)) * PRIME64_1 + PRIME64_4
  }

  function Init(seed: bv64): Lanes {
    Lanes(seed + PRIME64_1 + PRIME64_2, seed + PRIME64_2, seed + 0, seed - PRIME64_1)
  }

  function Eight(h: bv64, word: bv64): bv64 {
    Rotl(h ^ Round(0, word), 27) * PRIME64_1 + PRIME64_4
  }

  function Four(h: bv64, word: bv64): bv64 {
    Rotl(h ^ (word * PRIME64_1), 23) * PRIME64_2 + PRIME64_3
  }

  function One(h: bv64, b: bv8): bv64 {
    Rotl(h ^ ((b as bv64) * PRIME64_5), 11) * PRIME64_1
  }

  function Avalanche(h0: bv64): bv64 {
    var h1 := (h0 ^ (h0 >> 33)) * PRIME64_2;
    var h2 := (h1 ^ (h1 >> 29)) * PRIME64_3;
    h2 ^ (h2 >> 32)
  }

  /** The steps the hash is put together from, whatever they are. */
  datatype Steps = Steps(round: (bv64, bv64) -> bv64, merge: (bv64, bv64) -> bv64, eight: (bv64, bv64) -> bv64,
    four: (bv64, bv64) -> bv64, one: (bv64, bv8) -> bv64, avalanche: bv64 -> bv64,
    addLen: (bv64, nat) -> bv64)

  const STEPS: Steps := Steps(Round, MergeRound, Eight, Four, One, Avalanche, AddLen)

  /** One 32-byte stripe. */
  function Stripe(m: Steps, v: Lanes, data: Bytes): Lanes
    requires |data| == 32
  {
    Lanes(m.round(v.v1, ReadLE64(data, 0)), m.round(v.v2, ReadLE64(data, 8)),
          m.round(v.v3, ReadLE64(data, 16)), m.round(v.v4, ReadLE64(data, 24)))
  }

  function Converge(m: Steps, v: Lanes): bv64 {
    var h := Rotl(v.v1, 1) + Rotl(v.v2, 7) + Rotl(v.v3, 12) + Rotl(v.v4, 18);
    m.merge(m.merge(m.merge(m.merge(h, v.v1), v.v2), v.v3), v.v4)
  }

  /** XXH64_finalize on the bytes after the last stripe: eights, then a four, then ones. */
  function Finalize(m: Steps, h: bv64, tail: Bytes): bv64
    decreases |tail|
  {
    if |tail| >= 8 then Finalize(m, m.eight(h, ReadLE64(tail, 0)), tail[8..])
    else if |tail| >= 4 then Finalize(m, m.four(h, ReadLE32(tail, 0)), tail[4..])
    else if |tail| > 0 then Finalize(m, m.one(h, tail[0]), tail[1..])
    else m.avalanche(h)
  }

  /** XXH64 with a seed, as a striped hash. */
  function EngineOf(m: Steps, seed: bv64): Engine<Lanes, bv64> {
    Engine(32, 0x1_0000_0000_0000_0000, Init(seed),
      (v: Lanes, data: Bytes) => if |data| == 32 then Stripe(m, v, data) else v,
      (v: Lanes) => Converge(m, v), seed + PRIME64_5, (v: Lanes) => v.v3 + PRIME64_5,
      m.addLen,
      (h: bv64, tail: Bytes) => Finalize(m, h, tail))
  }

  function Xxh64Engine(seed: bv64): Engine<Lanes, bv64> {
    EngineOf(STEPS, seed)
  }

  lemma Xxh64Proper(seed: bv64)
    ensures Proper(Xxh64Engine(seed))
  {
    var e := Xxh64Engine(seed);
    assert e.short(e.start) == Init(seed).v3 + PRIME64_5;
  }
}

/** The XXH64 streaming state, over any hash of its shape. */
module Xxh64State {
  import opened Stripes
  import opened XxhStriped

  class State<S(!new), H(!new)> {
    const e: Engine<S, H>
    var totalLen: nat
    var v: S
    var mem: array<bv8>
    var memsize: nat
    ghost var consumed: Bytes

    ghost predicate Valid()
      reads this, mem
    {
      && Proper(e) && e.width == 32 && e.modulus == 0x1_0000_0000_0000_0000
      && mem.Length == 32 && memsize < 32
      && v == Fold(e.stripe, e.start, consumed, 32)
      && mem[..memsize] == Tail(consumed, 32)
      && totalLen == |consumed| % 0x1_0000_0000_0000_0000
    }

    /** XXH64_reset */
    constructor (e: Engine<S, H>)
      requires Proper(e) && e.width == 32 && e.modulus == 0x1_0000_0000_0000_0000
      ensures Valid() && this.e == e && consumed == [] && fresh(mem)
    {
      this.e := e;
      totalLen, v := 0, e.start;
      mem, memsize := new bv8[32](_ => 0), 0;
      consumed := [];
    }

    /** XXH64_update */
    method Update(input: Bytes)
      requires Valid()
      modifies this, mem
      ensures Valid() && consumed == old(consumed) + input && mem == old(mem)
    {
      FoldAppend(e.stripe, e.start, consumed, input, 32);
      CountUpdate(|consumed|, |input|);
      consumed := consumed + input;
      totalLen := (totalLen + |input|) % 0x1_0000_0000_0000_0000;
      v, memsize := Absorb(e, mem, memsize, v, input);
    }

    /** XXH64_digest, which takes the length of the rest from the low bits of the total. */
    method Digest() returns (r: H)
      requires Valid()
      ensures |consumed| < 0x1_0000_0000_0000_0000 ==> r == Hash(e, consumed)
    {
      var h := if totalLen >= 32 then e.converge(v) else e.short(v);
      TailLength32(consumed);
      r := e.finish(e.addLen(h, totalLen), mem[..totalLen % 32]);
    }
  }

  lemma CountUpdate(before: nat, len: nat)
    ensures (before % 0x1_0000_0000_0000_0000 + len) % 0x1_0000_0000_0000_0000 == (before + len) % 0x1_0000_0000_0000_0000
  {
  }

  /** Hashing chunk by chunk gives the hash of the whole, for every chunking of an input a size_t can measure. */
  method Stream<S(!new), H(!new)>(e: Engine<S, H>, chunks: seq<Bytes>) returns (r: H)
    requires Proper(e) && e.width == 32 && e.modulus == 0x1_0000_0000_0000_0000
    ensures |Concat(chunks)| < 0x1_0000_0000_0000_0000 ==> r == Hash(e, Concat(chunks))
  {
    var state := new State(e);
    for i := 0 to |chunks|
      invariant state.Valid() && fresh(state) && fresh(state.mem)
      invariant state.e == e && state.consumed == Concat(chunks[..i])
    {
      assert chunks[..i + 1][..i] == chunks[..i];
      state.Update(chunks[i]);
    }
    assert chunks[..|chunks|] == chunks;
    r := state.Digest();
  }
}

/** XXH64 itself, both ways. */
module Xxh64Api {
  import opened Stripes
  import opened XxhStriped
  import opened Xxh64
  import Xxh64State

  /** XXH64_reset, XXH64_update on each chunk and XXH64_digest agree with XXH64 on the whole input. */
  method Xxh64BothWays(chunks: seq<Bytes>, seed: bv64) returns (streamed: bv64, whole: bv64)
    requires |Concat(chunks)| < 0x1_0000_0000_0000_0000
    ensures streamed == whole == Hash(Xxh64Engine(seed), Concat(chunks))
  {
    Xxh64Proper(seed);
    streamed := Xxh64State.Stream(Xxh64Engine(seed), chunks);
    whole := OneShot(Xxh64Engine(seed), Concat(chunks));
  }
}
