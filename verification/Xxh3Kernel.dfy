/** XXH3's arithmetic on words: the scalar kernel, the short inputs and the derived secret. */
module Xxh3Kernel {
  import opened Stripes
  import opened Xxh64
  import opened Xxh3Engine
  import opened Machine
  import Multiply

  const ROW0: Bytes := [0xb8, 0xfe, 0x6c, 0x39, 0x23, 0xa4, 0x4b, 0xbe, 0x7c, 0x01, 0x81, 0x2c, 0xf7, 0x21, 0xad, 0x1c]
  const ROW1: Bytes := [0xde, 0xd4, 0x6d, 0xe9, 0x83, 0x90, 0x97, 0xdb, 0x72, 0x40, 0xa4, 0xa4, 0xb7, 0xb3, 0x67, 0x1f]
  const ROW2: Bytes := [0xcb, 0x79, 0xe6, 0x4e, 0xcc, 0xc0, 0xe5, 0x78, 0x82, 0x5a, 0xd0, 0x7d, 0xcc, 0xff, 0x72, 0x21]
  const ROW3: Bytes := [0xb8, 0x08, 0x46, 0x74, 0xf7, 0x43, 0x24, 0x8e, 0xe0, 0x35, 0x90, 0xe6, 0x81, 0x3a, 0x26, 0x4c]
  const ROW4: Bytes := [0x3c, 0x28, 0x52, 0xbb, 0x91, 0xc3, 0x00, 0xcb, 0x88, 0xd0, 0x65, 0x8b, 0x1b, 0x53, 0x2e, 0xa3]
  const ROW5: Bytes := [0x71, 0x64, 0x48, 0x97, 0xa2, 0x0d, 0xf9, 0x4e, 0x38, 0x19, 0xef, 0x46, 0xa9, 0xde, 0xac, 0xd8]
  const ROW6: Bytes := [0xa8, 0xfa, 0x76, 0x3f, 0xe3, 0x9c, 0x34, 0x3f, 0xf9, 0xdc, 0xbb, 0xc7, 0xc7, 0x0b, 0x4f, 0x1d]
  const ROW7: Bytes := [0x8a, 0x51, 0xe0, 0x4b, 0xcd, 0xb4, 0x59, 0x31, 0xc8, 0x9f, 0x7e, 0xc9, 0xd9, 0x78, 0x73, 0x64]
  const ROW8: Bytes := [0xea, 0xc5, 0xac, 0x83, 0x34, 0xd3, 0xeb, 0xc3, 0xc5, 0x81, 0xa0, 0xff, 0xfa, 0x13, 0x63, 0xeb]
  const ROW9: Bytes := [0x17, 0x0d, 0xdd, 0x51, 0xb7, 0xf0, 0xda, 0x49, 0xd3, 0x16, 0x55, 0x26, 0x29, 0xd4, 0x68, 0x9e]
  const ROW10: Bytes := [0x2b, 0x16, 0xbe, 0x58, 0x7d, 0x47, 0xa1, 0xfc, 0x8f, 0xf8, 0xb8, 0xd1, 0x7a, 0xd0, 0x31, 0xce]
  const ROW11: Bytes := [0x45, 0xcb, 0x3a, 0x8f, 0x95, 0x16, 0x04, 0x28, 0xaf, 0xd7, 0xfb, 0xca, 0xbb, 0x4b, 0x40, 0x7e]

  /** XXH3_kSecret, sixteen bytes a row. */
  const K_SECRET: Bytes :=
    ROW0 + ROW1 + ROW2 + ROW3 + ROW4 + ROW5 + ROW6 + ROW7 + ROW8 + ROW9 + ROW10 + ROW11

  /** Eight 64-bit accumulators: PRIME32_3, PRIME64_1 to 4, PRIME32_2, PRIME64_5 and PRIME32_1 at first. */
  const INIT_ACC: seq<SizeT> :=
    [0xC2B2AE3D, 0x9E3779B185EBCA87, 0xC2B2AE3D27D4EB4F, 0x165667B19E3779F9,
     0x85EBCA77C2B2AE63, 0x85EBCA77, 0x27D4EB2F165667C5, 0x9E3779B1]

  type Acc = a: seq<SizeT> | |a| == 8 witness INIT_ACC

  // ----- lanes

  /** The neighbour of a lane: its index with the lowest bit flipped. */
  function Twin(i: nat): (r: nat)
    ensures i < 8 ==> r < 8
  {
    if i % 2 == 0 then i + 1 else i - 1
  }

  /** The product of a word's two halves. */
  function Mix(key: SizeT): SizeT {
    WrapMul(key % Multiply.B32, key / Multiply.B32)
  }

  /** What is made of a word of input and one of secret. The lanes are defined for any such mixing. */
  type Mixing = (bv64, bv64) -> SizeT

  function MixWords(data: bv64, key: bv64): SizeT {
    Mix(Number(Xor(data, key)))
  }

  /** What lane i adds to its neighbour, and to itself. */
  function LaneData(input: Bytes, i: nat): SizeT
    requires i < 8 && |input| == STRIPE
  {
    Number(ReadLE64(input, 8 * i))
  }

  function LaneMix(mixing: Mixing, input: Bytes, secret: Bytes, i: nat): SizeT
    requires i < 8 && |input| == STRIPE == |secret|
  {
    mixing(ReadLE64(input, 8 * i), ReadLE64(secret, 8 * i))
  }

  function Number(w: bv64): SizeT { w as nat }

  function Xor(a: bv64, b: bv64): bv64 { a ^ b }

  function Plus(a: SizeT, b: SizeT): SizeT { (a + b) % 0x1_0000_0000_0000_0000 }

  /** Summands can be added in either order. */
  ghost predicate Reorders<W(!new)>(plus: (W, W) -> W) {
    forall a, x, y :: plus(plus(a, x), y) == plus(plus(a, y), x)
  }

  lemma PlusReorders()
    ensures Reorders(Plus)
  {
    forall a: SizeT, x: SizeT, y: SizeT ensures Plus(Plus(a, x), y) == Plus(Plus(a, y), x) {
      PlusReorder(a, x, y);
    }
  }

  lemma PlusReorder(a: SizeT, x: SizeT, y: SizeT)
    ensures Plus(Plus(a, x), y) == Plus(Plus(a, y), x)
  {
    PlusWraps(a + x, y);
    PlusWraps(a + y, x);
  }

  lemma PlusWraps(n: nat, y: nat)
    ensures (n % 0x1_0000_0000_0000_0000 + y) % 0x1_0000_0000_0000_0000 == (n + y) % 0x1_0000_0000_0000_0000
  {
  }

  /** All lanes at once: each takes its neighbour's data and its own product. */
  function AddLanes<W(!new)>(plus: (W, W) -> W, acc: seq<W>, data: nat -> W, mix: nat -> W): (r: seq<W>)
    ensures |r| == |acc|
  {
    seq(|acc|, i requires 0 <= i < |acc| => plus(plus(acc[i], data(Twin(i))), mix(i)))
  }

  /** The two summands of the eight lanes. */
  function StripeData(input: Bytes): nat -> SizeT
    requires |input| == STRIPE
  {
    (i: nat) => if i < 8 then LaneData(input, i) else 0
  }

  function StripeMix(mixing: Mixing, input: Bytes, secret: Bytes): nat -> SizeT
    requires |input| == STRIPE == |secret|
  {
    (i: nat) => if i < 8 then LaneMix(mixing, input, secret, i) else 0
  }

  /** One stripe, lane-parallel, as vector code does it. */
  function Accumulate512(mixing: Mixing, acc: Acc, input: Bytes, secret: Bytes): Acc
    requires |input| == STRIPE == |secret|
  {
    AddLanes(Plus, acc, StripeData(input), StripeMix(mixing, input, secret))
  }

  /** Lane l after the first n of the eight scalar rounds. */
  ghost function AfterRounds<W(!new)>(plus: (W, W) -> W, a: W, l: nat, n: nat, data: nat -> W, mix: nat -> W): W {
    if l % 2 == 0 then
      if n <= l then a else if n == l + 1 then plus(a, mix(l)) else plus(plus(a, mix(l)), data(l + 1))
    else
      if n < l then a else if n == l then plus(a, data(l - 1)) else plus(plus(a, data(l - 1)), mix(l))
  }

  lemma RoundOnLane<W(!new)>(plus: (W, W) -> W, a: W, l: nat, lane: nat, data: nat -> W, mix: nat -> W)
    ensures AfterRounds(plus, a, l, lane + 1, data, mix) ==
      Rounded(plus, AfterRounds(plus, a, l, lane, data, mix), l, lane, data, mix)
  {
  }

  /** What the round of one lane does to lane l. */
  ghost function Rounded<W(!new)>(plus: (W, W) -> W, a: W, l: nat, lane: nat, data: nat -> W, mix: nat -> W): W {
    if l == lane then plus(a, mix(lane)) else if l == Twin(lane) then plus(a, data(lane)) else a
  }

  /** XXH3_scalarRound: a lane's data goes to its neighbour, its product to itself. */
  method ScalarRound<W(!new)>(plus: (W, W) -> W, acc: array<W>, data: nat -> W, mix: nat -> W, lane: nat)
    requires acc.Length == 8 && lane < 8
    modifies acc
    ensures forall l :: 0 <= l < 8 ==>
      acc[l] == Rounded(plus, old(acc[l]), l, lane, data, mix)
  {
    acc[Twin(lane)] := plus(acc[Twin(lane)], data(lane));
    acc[lane] := plus(acc[lane], mix(lane));
  }

  /** Eight calls of XXH3_scalarRound, each adding to two lanes in place, make the lane-parallel sum. */
  method ScalarRounds<W(!new)>(plus: (W, W) -> W, acc: array<W>, data: nat -> W, mix: nat -> W)
    requires acc.Length == 8 && Reorders(plus)
    modifies acc
    ensures acc[..] == AddLanes(plus, old(acc[..]), data, mix)
  {
    ghost var was := acc[..];
    for lane := 0 to 8
      invariant forall l :: 0 <= l < 8 ==> acc[l] == AfterRounds(plus, was[l], l, lane, data, mix)
    {
      ScalarRound(plus, acc, data, mix, lane);
      forall l | 0 <= l < 8 ensures acc[l] == AfterRounds(plus, was[l], l, lane + 1, data, mix) {
        RoundOnLane(plus, was[l], l, lane, data, mix);
      }
    }
  }

  /** XXH3_accumulate_512_scalar */
  method Accumulate512Scalar(acc: array<SizeT>, input: Bytes, secret: Bytes)
    requires acc.Length == 8 && |input| == STRIPE == |secret|
    modifies acc
    ensures acc[..] == Accumulate512(MixWords, old(acc[..]), input, secret)
  {
    PlusReorders();
    ScalarRounds(Plus, acc, StripeData(input), StripeMix(MixWords, input, secret));
  }

  function ScrambleLane(a: SizeT, key: bv64): SizeT {
    var w := Word(a);
    Multiply.ScrambleScalar(Number(Xor(Xor(w, w >> 47), key)))
  }

  /** What a block's end makes of a lane and a word of secret. */
  type Scrambling = (SizeT, bv64) -> SizeT

  /** XXH3_scrambleAcc_scalar */
  function ScrambleAcc(scrambling: Scrambling, acc: Acc, secret: Bytes): Acc
    requires |secret| == STRIPE
  {
    seq(8, i requires 0 <= i < 8 => scrambling(acc[i], ReadLE64(secret, 8 * i)))
  }

  // ----- mixing

  /** What makes one word of two: XXH3_mul128_fold64. Everything built on it is defined for any. */
  type Folding = (bv64, bv64) -> bv64

  function Fold64(lhs: bv64, rhs: bv64): bv64 {
    Multiply.Mult64to128Exact(lhs as nat, rhs as nat);
    var p := Multiply.Mult64to128(lhs as nat, rhs as nat);
    XorHalves(p.low, p.high)
  }

  function XorHalves(low: SizeT, high: SizeT): bv64 {
    Word(low) ^ Word(high)
  }

  function Avalanche3(h: bv64): bv64 {
    var h1 := (h ^ (h >> 37)) * 0x165667919E3779F9;
    h1 ^ (h1 >> 32)
  }

  function Mix2Accs(fold: Folding, a: SizeT, b: SizeT, secret: Bytes, off: nat): bv64
    requires off + 16 <= |secret|
  {
    fold(Word(a) ^ ReadLE64(secret, off), Word(b) ^ ReadLE64(secret, off + 8))
  }

  /** XXH3_mergeAccs from byte 11 of the secret, started with the length. */
  function MergeAccs(fold: Folding, acc: Acc, secret: Bytes, len: nat): bv64
    requires |secret| >= SECRET_SIZE_MIN
  {
    Avalanche3(Word(len) * PRIME64_1
      + Mix2Accs(fold, acc[0], acc[1], secret, 11) + Mix2Accs(fold, acc[2], acc[3], secret, 27)
      + Mix2Accs(fold, acc[4], acc[5], secret, 43) + Mix2Accs(fold, acc[6], acc[7], secret, 59))
  }

  function Swap32(x: bv64): bv64 {
    ((x << 24) & 0xFF000000) | ((x << 8) & 0x00FF0000) | ((x >> 8) & 0x0000FF00) | ((x >> 24) & 0x000000FF)
  }

  function Swap64(x: bv64): bv64 {
    (Swap32(x & 0xFFFFFFFF) << 32) | Swap32(x >> 32)
  }

  function Rrmxmx(h: bv64, len: nat): bv64 {
    var h1 := (h ^ Rotl(h, 49) ^ Rotl(h, 24)) * 0x9FB21C651E98DF25;
    var h2 := (h1 ^ ((h1 >> 35) + Word(len))) * 0x9FB21C651E98DF25;
    h2 ^ (h2 >> 28)
  }

  // ----- inputs of at most 240 bytes

  function Len1to3(data: Bytes, secret: Bytes, seed: bv64): bv64
    requires 1 <= |data| <= 3 && |secret| >= SECRET_SIZE_MIN
  {
    var len := |data|;
    var combined := ((data[0] as bv64) << 16) | ((data[len / 2] as bv64) << 24) | (data[len - 1] as bv64) | (Word(len) << 8);
    Avalanche(combined ^ ((ReadLE32(secret, 0) ^ ReadLE32(secret, 4)) + seed))
  }

  function Len4to8(data: Bytes, secret: Bytes, seed0: bv64): bv64
    requires 4 <= |data| <= 8 && |secret| >= SECRET_SIZE_MIN
  {
    var seed := seed0 ^ (Swap32(seed0 & 0xFFFFFFFF) << 32);
    var bitflip := (ReadLE64(secret, 8) ^ ReadLE64(secret, 16)) - seed;
    var input64 := ReadLE32(data, |data| - 4) + (ReadLE32(data, 0) << 32);
    Rrmxmx(input64 ^ bitflip, |data|)
  }

  function Len9to16(fold: Folding, data: Bytes, secret: Bytes, seed: bv64): bv64
    requires 9 <= |data| <= 16 && |secret| >= SECRET_SIZE_MIN
  {
    var lo := ReadLE64(data, 0) ^ ((ReadLE64(secret, 24) ^ ReadLE64(secret, 32)) + seed);
    var hi := ReadLE64(data, |data| - 8) ^ ((ReadLE64(secret, 40) ^ ReadLE64(secret, 48)) - seed);
    Avalanche3(Word(|data|) + Swap64(lo) + hi + fold(lo, hi))
  }

  function Mix16B(fold: Folding, data: Bytes, i: nat, secret: Bytes, off: nat, seed: bv64): bv64
    requires i + 16 <= |data| && off + 16 <= |secret|
  {
    fold(ReadLE64(data, i) ^ (ReadLE64(secret, off) + seed), ReadLE64(data, i + 8) ^ (ReadLE64(secret, off + 8) - seed))
  }

  /** Sixteen bytes at distance 16 * i from the front, and from the back. */
  function MixEnds(fold: Folding, data: Bytes, i: nat, secret: Bytes, seed: bv64): bv64
    requires 16 * (i + 1) <= |data| && 32 * (i + 1) <= |secret|
  {
    Mix16B(fold, data, 16 * i, secret, 32 * i, seed) + Mix16B(fold, data, |data| - 16 * (i + 1), secret, 32 * i + 16, seed)
  }

  function Len17to128(fold: Folding, data: Bytes, secret: Bytes, seed: bv64): bv64
    requires 17 <= |data| <= 128 && |secret| >= SECRET_SIZE_MIN
  {
    var len := |data|;
    var acc := Word(len) * PRIME64_1;
    var acc3 := if len > 96 then acc + MixEnds(fold, data, 3, secret, seed) else acc;
    var acc2 := if len > 64 then acc3 + MixEnds(fold, data, 2, secret, seed) else acc3;
    var acc1 := if len > 32 then acc2 + MixEnds(fold, data, 1, secret, seed) else acc2;
    Avalanche3(acc1 + MixEnds(fold, data, 0, secret, seed))
  }

  /** n rounds of 16 bytes from the given places in the data and the secret. */
  function MixRounds(fold: Folding, data: Bytes, i: nat, secret: Bytes, off: nat, seed: bv64, n: nat): bv64
    requires i + 16 * n <= |data| && off + 16 * n <= |secret|
    decreases n
  {
    if n == 0 then 0
    else Mix16B(fold, data, i, secret, off, seed) + MixRounds(fold, data, i + 16, secret, off + 16, seed, n - 1)
  }

  function Len129to240(fold: Folding, data: Bytes, secret: Bytes, seed: bv64): bv64
    requires 129 <= |data| <= 240 && |secret| >= SECRET_SIZE_MIN
  {
    var acc := Avalanche3(Word(|data|) * PRIME64_1 + MixRounds(fold, data, 0, secret, 0, seed, 8));
    var rest := acc + MixRounds(fold, data, 128, secret, 3, seed, |data| / 16 - 8);
    Avalanche3(rest + Mix16B(fold, data, |data| - 16, secret, SECRET_SIZE_MIN - 17, seed))
  }

  function Short(fold: Folding, data: Bytes, secret: Bytes, seed: bv64): bv64
    requires |data| <= MIDSIZE_MAX && |secret| >= SECRET_SIZE_MIN
  {
    if |data| > 128 then Len129to240(fold, data, secret, seed)
    else if |data| > 16 then Len17to128(fold, data, secret, seed)
    else if |data| > 8 then Len9to16(fold, data, secret, seed)
    else if |data| >= 4 then Len4to8(data, secret, seed)
    else if |data| > 0 then Len1to3(data, secret, seed)
    else Avalanche(seed ^ (ReadLE64(secret, 56) ^ ReadLE64(secret, 64)))
  }

  // ----- the secret of a seed

  /** The low n bytes of a word, little end first. */
  function LittleEnd(w: bv64, n: nat): (r: Bytes)
    ensures |r| == n
    decreases n
  {
    if n == 0 then [] else [(w & 0xFF) as bv8] + LittleEnd(w >> 8, n - 1)
  }

  /** Word i of the derived secret: that of the default one, k, with the seed added, or subtracted in odd words. */
  function DerivedWord(k: Bytes, seed: bv64, i: nat): bv64
    requires i < 24 && |k| == SECRET_DEFAULT_SIZE
  {
    if i % 2 == 0 then ReadLE64(k, 8 * i) + seed else ReadLE64(k, 8 * i) - seed
  }

  /** A word as XXH_writeLE64 stores it. */
  function WordBytes(w: bv64): (r: Bytes)
    ensures |r| == 8
  {
    LittleEnd(w, 8)
  }

  /** The first n words, one after the other. */
  function Words(word: nat -> Bytes, n: nat): Bytes {
    if n == 0 then [] else Words(word, n - 1) + word(n - 1)
  }

  lemma {:induction false} WordsLength(word: nat -> Bytes, n: nat)
    requires forall i :: |word(i)| == 8
    ensures |Words(word, n)| == 8 * n
  {
    if n > 0 { WordsLength(word, n - 1); }
  }

  function DerivedBytes(k: Bytes, seed: bv64): nat -> Bytes
    requires |k| == SECRET_DEFAULT_SIZE
  {
    (i: nat) => WordBytes(if i < 24 then DerivedWord(k, seed, i) else 0)
  }

  function DeriveFrom(k: Bytes, seed: bv64): (r: Bytes)
    requires |k| == SECRET_DEFAULT_SIZE
    ensures |r| == SECRET_DEFAULT_SIZE
  {
    WordsLength(DerivedBytes(k, seed), 24);
    Words(DerivedBytes(k, seed), 24)
  }

  function DeriveSecret(seed: bv64): (r: Bytes)
    ensures |r| == SECRET_DEFAULT_SIZE
  {
    DeriveFrom(K_SECRET, seed)
  }

  /** XXH3_initCustomSecret_scalar: two words a round. */
  method WriteWords(dst: array<bv8>, word: nat -> Bytes)
    requires dst.Length == SECRET_DEFAULT_SIZE && forall i :: |word(i)| == 8
    modifies dst
    ensures dst[..] == Words(word, 24)
  {
    for i := 0 to 12
      invariant dst[..16 * i] == Words(word, 2 * i)
    {
      CopyIn(dst, 16 * i, word(2 * i));
      CopyIn(dst, 16 * i + 8, word(2 * i + 1));
    }
    assert dst[..] == dst[..192];
  }

  method InitCustomSecret(customSecret: array<bv8>, seed: bv64)
    requires customSecret.Length == SECRET_DEFAULT_SIZE
    modifies customSecret
    ensures customSecret[..] == DeriveSecret(seed)
  {
    WriteWords(customSecret, DerivedBytes(K_SECRET, seed));
  }

  /** XXH3, 64-bit, from its three multiplications. The engine only ever passes whole stripes and enough of a secret. */
  function Xxh3With(mixing: Mixing, scrambling: Scrambling, fold: Folding): Kernel<Acc, bv64> {
    Kernel<Acc, bv64>.Kernel(INIT_ACC,
      (acc: Acc, input: Bytes, secret: Bytes) =>
        if |input| == STRIPE == |secret| then Accumulate512(mixing, acc, input, secret) else acc,
      (acc: Acc, secret: Bytes) => if |secret| == STRIPE then ScrambleAcc(scrambling, acc, secret) else acc,
      (acc: Acc, secret: Bytes, len: nat) => if |secret| >= SECRET_SIZE_MIN then MergeAccs(fold, acc, secret, len) else 0,
      (data: Bytes, secret: Bytes, seed: bv64) =>
        if |data| <= MIDSIZE_MAX && |secret| >= SECRET_SIZE_MIN then Short(fold, data, secret, seed) else 0,
      K_SECRET, DeriveSecret)
  }

  function Xxh3(): Kernel<Acc, bv64> {
    Xxh3With(MixWords, ScrambleLane, Fold64)
  }

  lemma Xxh3Proper()
    ensures Proper(Xxh3())
  {
  }
}

/** XXH3 itself, both ways. */
module Xxh3Api {
  import opened Machine
  import opened Stripes
  import opened Xxh3State
  import opened Xxh3Kernel

  /** In every mode, for every chunking, XXH3's digest after reset and updates is its one-shot hash. */
  method Xxh3BothWays(mode: Mode, chunks: seq<Bytes>) returns (streamed: bv64, whole: bv64)
    requires ModeOk(mode) && |Concat(chunks)| < 0x1_0000_0000_0000_0000
    ensures streamed == whole == Reference(Xxh3(), mode, Concat(chunks))
  {
    Xxh3Proper();
    var state := new State(Xxh3());
    streamed := Stream(state, mode, chunks);
    whole := OneShotMode(Xxh3(), mode, Concat(chunks));
  }

  /** vsc_hash on a 64-bit target: XXH3 with seed 0, and the invalid hash for no data where some is promised. */
  method VscHash(data: Option<Bytes>, size: nat) returns (h: bv64)
    requires data.Some? ==> |data.value| == size
    ensures data.None? && size != 0 ==> h == 0xFFFF_FFFF_FFFF_FFFF
    ensures data.None? && size == 0 ==> h == Reference(Xxh3(), Default, [])
    ensures data.Some? ==> h == Reference(Xxh3(), Default, data.value)
  {
    if data.None? && size != 0 { return 0xFFFF_FFFF_FFFF_FFFF; }
    var input := if data.Some? then data.value else [];
    Xxh3Proper();
    h := OneShotMode(Xxh3(), WithSeed(0), input);
  }
}
