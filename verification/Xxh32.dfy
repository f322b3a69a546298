/** XXH32 and its streaming state. */
module Xxh32 {
  import opened Stripes
  import opened XxhStriped

  const PRIME32_1: bv32 := 0x9E3779B1
  const PRIME32_2: bv32 := 0x85EBCA77
  const PRIME32_3: bv32 := 0xC2B2AE3D
  const PRIME32_4: bv32 := 0x27D4EB2F
  const PRIME32_5: bv32 := 0x165667B1

  datatype Lanes = Lanes(v1: bv32, v2: bv32, v3: bv32, v4: bv32)

  function Rotl(x: bv32, r: bv32): bv32
    requires 0 < r < 32
  {
    (x << r) | (x >> (32 - r))
  }

  /** Four bytes at offset i, little end first. */
  function ReadLE32(data: Bytes, i: nat): bv32
    requires i + 4 <= |data|
  {
    (data[i] as bv32) | ((data[i + 1] as bv32) << 8) | ((data[i + 2] as bv32) << 16) | ((data[i + 3] as bv32) << 24)
  }

  /** n modulo 2^32. */
  function Word(n: nat): bv32 {
    if n < 0x1_0000_0000 then n as bv32 else Word(n - 0x1_0000_0000)
  }

  function AddLen(h: bv32, n: nat): bv32 { h + Word(n) }

  function Round(acc: bv32, input: bv32): bv32 {
    Rotl(acc + input * PRIME32_2, 13) * PRIME32_1
  }

  function Init(seed: bv32): Lanes {
    Lanes(seed + PRIME32_1 + PRIME32_2, seed + PRIME32_2, seed + 0, seed - PRIME32_1)
  }

  function Four(h: bv32, word: bv32): bv32 {
    Rotl(h + word * PRIME32_3, 17) * PRIME32_4
  }

  function One(h: bv32, b: bv8): bv32 {
    Rotl(h + (b as bv32) * PRIME32_5, 11) * PRIME32_1
  }

  function Avalanche(h0: bv32): bv32 {
    var h1 := (h0 ^ (h0 >> 15)) * PRIME32_2;
    var h2 := (h1 ^ (h1 >> 13)) * PRIME32_3;
    h2 ^ (h2 >> 16)
  }

  /** The steps the hash is put together from, whatever they are. */
  datatype Steps = Steps(round: (bv32, bv32) -> bv32, four: (bv32, bv32) -> bv32, one: (bv32, bv8) -> bv32,
    avalanche: bv32 -> bv32, addLen: (bv32, nat) -> bv32)

  const STEPS: Steps := Steps(Round, Four, One, Avalanche, AddLen)

  /** One 16-byte stripe. */
  function Stripe(m: Steps, v: Lanes, data: Bytes): Lanes
    requires |data| == 16
  {
    Lanes(m.round(v.v1, ReadLE32(data, 0)), m.round(v.v2, ReadLE32(data, 4)),
          m.round(v.v3, ReadLE32(data, 8)), m.round(v.v4, ReadLE32(data, 12)))
  }

  function Converge(v: Lanes): bv32 {
    Rotl(v.v1, 1) + Rotl(v.v2, 7) + Rotl(v.v3, 12) + Rotl(v.v4, 18)
  }

  /** XXH32_finalize, whose loops take four bytes at a time and then one at a time. */
  function Finalize(m: Steps, h: bv32, tail: Bytes): bv32
    decreases |tail|
  {
    if |tail| >= 4 then Finalize(m, m.four(h, ReadLE32(tail, 0)), tail[4..])
    else if |tail| > 0 then Finalize(m, m.one(h, tail[0]), tail[1..])
    else m.avalanche(h)
  }

  /** The two loops of XXH32_finalize. */
  method FinalizeLoop(m: Steps, h0: bv32, tail: Bytes) returns (h: bv32)
    ensures h == Finalize(m, h0, tail)
  {
    h := h0;
    var p := 0;
    while |tail| - p >= 4
      invariant 0 <= p <= |tail| && Finalize(m, h, tail[p..]) == Finalize(m, h0, tail)
    {
      h := m.four(h, ReadLE32(tail[p..], 0));
      assert tail[p..][4..] == tail[p + 4..];
      p := p + 4;
    }
    while p < |tail|
      invariant 0 <= p <= |tail| && |tail| - p < 4 && Finalize(m, h, tail[p..]) == Finalize(m, h0, tail)
    {
      h := m.one(h, tail[p]);
      assert tail[p..][1..] == tail[p + 1..];
      p := p + 1;
    }
    h := m.avalanche(h);
  }

  /** XXH32 with a seed, as a striped hash: the length counts modulo 2^32. */
  function EngineOf(m: Steps, seed: bv32): Engine<Lanes, bv32> {
    Engine(16, 0x1_0000_0000, Init(seed),
      (v: Lanes, data: Bytes) => if |data| == 16 then Stripe(m, v, data) else v,
      Converge, seed + PRIME32_5, (v: Lanes) => v.v3 + PRIME32_5,
      m.addLen,
      (h: bv32, tail: Bytes) => Finalize(m, h, tail))
  }

  function Xxh32Engine(seed: bv32): Engine<Lanes, bv32> {
    EngineOf(STEPS, seed)
  }

  lemma Xxh32Proper(seed: bv32)
    ensures Proper(Xxh32Engine(seed))
  {
    var e := Xxh32Engine(seed);
    assert e.short(e.start) == Init(seed).v3 + PRIME32_5;
  }
}

/** The XXH32 streaming state, over any hash of its shape. */
module Xxh32State {
  import opened Stripes
  import opened XxhStriped

  class State<S(!new), H(!new)> {
    const e: Engine<S, H>
    var totalLen32: nat
    var largeLen: bool
    var v: S
    var mem: array<bv8>
    var memsize: nat
    ghost var consumed: Bytes

    /** The state is what the bytes consumed so far make it. */
    ghost predicate Valid()
      reads this, mem
    {
      && Proper(e) && e.width == 16 && e.modulus == 0x1_0000_0000
      && mem.Length == 16 && memsize < 16
      && v == Fold(e.stripe, e.start, consumed, 16)
      && mem[..memsize] == Tail(consumed, 16)
      && totalLen32 == |consumed| % 0x1_0000_0000
      && (largeLen <==> |consumed| >= 16)
    }

    /** XXH32_reset */
    constructor (e: Engine<S, H>)
      requires Proper(e) && e.width == 16 && e.modulus == 0x1_0000_0000
      ensures Valid() && this.e == e && consumed == [] && fresh(mem)
    {
      this.e := e;
      totalLen32, largeLen, v := 0, false, e.start;
      mem, memsize := new bv8[16](_ => 0), 0;
      consumed := [];
    }

    /** XXH32_update */
    method Update(input: Bytes)
      requires Valid()
      modifies this, mem
      ensures Valid() && consumed == old(consumed) + input && mem == old(mem)
    {
      ghost var before := consumed;
      FoldAppend(e.stripe, e.start, before, input, 16);
      consumed := before + input;
      CountIn(|input|, |before|);
      v, memsize := Absorb(e, mem, memsize, v, input);
    }

    /** The two counters after len more bytes, before being the true length so far. */
    method CountIn(len: nat, ghost before: nat)
      requires totalLen32 == before % 0x1_0000_0000 && (largeLen <==> before >= 16)
      modifies this`totalLen32, this`largeLen
      ensures totalLen32 == (before + len) % 0x1_0000_0000 && (largeLen <==> before + len >= 16)
    {
      LargeUpdate(before, len);
      totalLen32 := (totalLen32 + len) % 0x1_0000_0000;
      largeLen := largeLen || len >= 16 || totalLen32 >= 16;
    }

    /** XXH32_digest: right at any length, 2^32 bytes and more included. */
    method Digest() returns (r: H)
      requires Valid()
      ensures r == Hash(e, consumed)
    {
      var h := if largeLen then e.converge(v) else e.short(v);
      r := e.finish(e.addLen(h, totalLen32), mem[..memsize]);
    }
  }

  /** The wrapped count and the flag together still tell whether the true length reached 16. */
  lemma LargeUpdate(before: nat, len: nat)
    ensures (before % 0x1_0000_0000 + len) % 0x1_0000_0000 == (before + len) % 0x1_0000_0000
    ensures before >= 16 || len >= 16 || (before + len) % 0x1_0000_0000 >= 16 <==> before + len >= 16
  {
  }

  /** Hashing chunk by chunk gives the hash of the whole, for every chunking. */
  method Stream<S(!new), H(!new)>(e: Engine<S, H>, chunks: seq<Bytes>) returns (r: H)
    requires Proper(e) && e.width == 16 && e.modulus == 0x1_0000_0000
    ensures r == Hash(e, Concat(chunks))
  {
    var state := new State(e);
    for i := 0 to |chunks|
      invariant state.Valid() && fresh(state) && fresh(state.mem)
      invariant state.e == e && state.consumed == Concat(chunks[..i])
    {
      assert chunks[..i + 1][..i] == chunks[..i];
      state.Update(chunks[i]);
    }
    assert chunks[..|chunks|] == chunks;
    r := state.Digest();
  }
}

/** XXH32 itself, both ways. */
module Xxh32Api {
  import opened Stripes
  import opened XxhStriped
  import opened Xxh32
  import Xxh32State

  /** XXH32_reset, XXH32_update on each chunk and XXH32_digest agree with XXH32 on the whole input. */
  method Xxh32BothWays(chunks: seq<Bytes>, seed: bv32) returns (streamed: bv32, whole: bv32)
    ensures streamed == whole == Hash(Xxh32Engine(seed), Concat(chunks))
  {
    Xxh32Proper(seed);
    streamed := Xxh32State.Stream(Xxh32Engine(seed), chunks);
    whole := OneShot(Xxh32Engine(seed), Concat(chunks));
  }
}
