/** The system allocator over raw memory: allocate, reallocate, free, and what every run of them keeps. */
module Allocator {
  import opened Machine
  import opened Memory
  import opened AllocatorBlock

  /** The blocks the system has handed out: their addresses and lengths. */
  type Raw = map<nat, nat>

  /** The allocations by data pointer. */
  type Live = map<nat, Block>

  const NULL: nat := 0

  predicate Apart(x: nat, l: nat, y: nat, k: nat) {
    x + l <= y || y + k <= x
  }

  predicate RawOk(raw: Raw, n: nat) {
    && (forall x | x in raw :: x + raw[x] <= n)
    && (forall x, y | x in raw && y in raw && x != y :: Apart(x, raw[x], y, raw[y]))
  }

  predicate BlockOk(m: Bytes, raw: Raw, p: nat, b: Block) {
    && Sane(b) && p == DataOf(b)
    && b.base in raw && raw[b.base] == Extent(b) && b.base + Extent(b) <= |m|
    && Formatted(m[b.base..b.base + Extent(b)], b)
  }

  predicate AlignedLive(live: Live) {
    forall p | p in live :: LowBitsZero(p, live[p].power)
  }

  /** The invariant of the heap. */
  predicate HeapOk(m: Bytes, raw: Raw, live: Live) {
    && |m| <= ADDRESS_SPACE
    && RawOk(raw, |m|)
    && AlignedLive(live)
    && (forall p {:trigger BlockOk(m, raw, p, live[p])} | p in live :: BlockOk(m, raw, p, live[p]))
    && (forall p, q | p in live && q in live && p != q :: live[p].base != live[q].base)
  }

  function Payload(m: Bytes, p: nat, b: Block): (r: Bytes) {
    if p + b.size <= |m| then m[p..p + b.size] else []
  }

  // ----- what the invariant says

  /** The raw blocks of the live pointers are handed out. */
  lemma LiveBases(m: Bytes, raw: Raw, live: Live)
    requires HeapOk(m, raw, live)
    ensures forall p | p in live :: live[p].base in raw
  {
    forall p | p in live ensures live[p].base in raw {
      assert BlockOk(m, raw, p, live[p]);
    }
  }

  lemma LiveAligned(m: Bytes, raw: Raw, live: Live, p: nat)
    requires HeapOk(m, raw, live) && p in live
    ensures Aligned(p, Pow2(live[p].power))
  {
    LowBitsAligned(p, live[p].power);
  }

  /** Its payload is inside its raw block, and header and back-link are clear of it. */
  lemma LivePointer(m: Bytes, raw: Raw, live: Live, p: nat)
    requires HeapOk(m, raw, live) && p in live
    ensures live[p].base in raw
    ensures live[p].base + HEADER <= p && p + live[p].size <= live[p].base + raw[live[p].base] <= |m|
    ensures p == live[p].base + HEADER || live[p].base + HEADER <= p - 8
    ensures Sane(live[p]) && p == DataOf(live[p]) && raw[live[p].base] == Extent(live[p])
  {
    assert BlockOk(m, raw, p, live[p]);
  }

  lemma BlockHeader(m: Bytes, raw: Raw, p: nat, b: Block)
    requires BlockOk(m, raw, p, b)
    ensures 8 <= AlignDown(p, 8) <= |m| && b.base + HEADER <= |m| && p - b.base == b.shift
    ensures Mem2Hdr(m, p) == b.base && Word(m, b.base) == b.size && Word(m, b.base + 8) == b.power < 256
  {
    Mem2HdrFinds(m, b);
    HeaderReads(m, b);
  }

  /** From it the allocator finds exactly its own header, which says what was asked for. */
  lemma LiveHeader(m: Bytes, raw: Raw, live: Live, p: nat)
    requires HeapOk(m, raw, live) && p in live
    ensures 8 <= AlignDown(p, 8) <= |m| && live[p].base + HEADER <= |m|
    ensures Mem2Hdr(m, p) == live[p].base && p - live[p].base == live[p].shift
    ensures Word(m, live[p].base) == live[p].size && Word(m, live[p].base + 8) == live[p].power < 256
  {
    BlockHeader(m, raw, p, live[p]);
  }

  /** The raw blocks of two live pointers, and so their payloads, headers and links, never meet. */
  lemma LiveApart(m: Bytes, raw: Raw, live: Live, p: nat, q: nat)
    requires HeapOk(m, raw, live) && p in live && q in live && p != q
    ensures Apart(live[p].base, Extent(live[p]), live[q].base, Extent(live[q]))
    ensures Apart(p, live[p].size, q, live[q].size)
  {
    LivePointer(m, raw, live, p);
    LivePointer(m, raw, live, q);
  }

  // ----- memory that changes elsewhere

  lemma BlockKept(m: Bytes, w: Bytes, raw: Raw, raw2: Raw, p: nat, b: Block)
    requires BlockOk(m, raw, p, b) && |w| == |m| && b.base in raw2 && raw2[b.base] == raw[b.base]
    requires w[b.base..b.base + raw[b.base]] == m[b.base..b.base + raw[b.base]]
    ensures BlockOk(w, raw2, p, b) && Payload(w, p, b) == Payload(m, p, b)
  {
    SliceOfSlice(m, b.base, b.base + Extent(b), b.shift, b.shift + b.size);
    SliceOfSlice(w, b.base, b.base + Extent(b), b.shift, b.shift + b.size);
  }

  /** Every system block of raw reads the same in w as in m. */
  predicate SameRaw(m: Bytes, w: Bytes, raw: Raw) {
    && |w| == |m|
    && (forall x | x in raw && x + raw[x] <= |m| :: w[x..x + raw[x]] == m[x..x + raw[x]])
  }

  /** The allocations of live keep their payloads. */
  predicate SamePayloads(m: Bytes, w: Bytes, live: Live) {
    forall p | p in live :: Payload(w, p, live[p]) == Payload(m, p, live[p])
  }

  /** Blocks whose memory is left alone keep the invariant and their payloads. */
  lemma HeapKept(m: Bytes, w: Bytes, raw: Raw, live: Live, raw2: Raw, live2: Live)
    requires HeapOk(m, raw, live) && SameRaw(m, w, raw2)
    requires forall x | x in raw2 :: x in raw && raw2[x] == raw[x]
    requires forall p | p in live2 :: p in live && live2[p] == live[p] && live[p].base in raw2
    ensures HeapOk(w, raw2, live2) && SamePayloads(m, w, live2)
  {
    forall p | p in live2 ensures BlockOk(w, raw2, p, live2[p]) && Payload(w, p, live2[p]) == Payload(m, p, live2[p]) {
      KeptAt(m, w, raw, live, raw2, p);
    }
    RawSmaller(raw, raw2, |m|);
  }

  lemma KeptAt(m: Bytes, w: Bytes, raw: Raw, live: Live, raw2: Raw, p: nat)
    requires HeapOk(m, raw, live) && SameRaw(m, w, raw2) && p in live
    requires live[p].base in raw2 && live[p].base in raw && raw2[live[p].base] == raw[live[p].base]
    ensures BlockOk(w, raw2, p, live[p]) && Payload(w, p, live[p]) == Payload(m, p, live[p])
  {
    assert BlockOk(m, raw, p, live[p]);
    BlockKept(m, w, raw, raw2, p, live[p]);
  }

  lemma RawSmaller(raw: Raw, raw2: Raw, n: nat)
    requires RawOk(raw, n) && forall x | x in raw2 :: x in raw && raw2[x] == raw[x]
    ensures RawOk(raw2, n)
  {
  }

  // ----- the system's side

  /**
   * The system hands out n bytes at address at, in memory w: 8-aligned, apart from every block it still has out,
   * which it leaves alone. A block given back in exchange hands over the bytes both have room for.
   */
  predicate Granted(m: Bytes, w: Bytes, raw: Raw, given: Option<nat>, at: nat, n: nat) {
    && |w| == |m| && at != NULL && Aligned(at, 8) && at + n <= |m|
    && SameRaw(m, w, Without(raw, given))
    && (forall x | x in Without(raw, given) :: Apart(at, n, x, raw[x]))
    && (given.Some? ==> HandedOver(m, w, raw, given.value, at, n))
  }

  predicate HandedOver(m: Bytes, w: Bytes, raw: Raw, x: nat, at: nat, n: nat) {
    && x in raw && x + raw[x] <= |m| && at + n <= |w|
    && w[at..at + Min(raw[x], n)] == m[x..x + Min(raw[x], n)]
  }

  function Without(raw: Raw, given: Option<nat>): (r: Raw)
    ensures forall x | x in r :: x in raw && r[x] == raw[x]
  {
    if given.Some? then raw - {given.value} else raw
  }

  /** The allocations that stay when the one at ptr is given back, if any is. */
  function Staying(live: Live, keep: bool, ptr: nat): (r: Live)
    ensures forall p | p in r :: p in live && r[p] == live[p]
  {
    if keep then live - {ptr} else live
  }

  function GivenBack(live: Live, keep: bool, ptr: nat): Option<nat>
    requires keep ==> ptr in live
  {
    if keep then Some(live[ptr].base) else None
  }

  /** Before the new block is written: the allocations that stay are intact in w. */
  lemma GrantKeeps(m: Bytes, w: Bytes, raw: Raw, live: Live, keep: bool, ptr: nat, at: nat, n: nat)
    requires HeapOk(m, raw, live) && (keep ==> ptr in live)
    requires Granted(m, w, raw, GivenBack(live, keep, ptr), at, n)
    ensures HeapOk(w, Without(raw, GivenBack(live, keep, ptr)), Staying(live, keep, ptr))
    ensures SamePayloads(m, w, Staying(live, keep, ptr))
  {
    var raw2, live2 := Without(raw, GivenBack(live, keep, ptr)), Staying(live, keep, ptr);
    forall p | p in live2 ensures p in live && live2[p] == live[p] && live[p].base in raw2 {
      assert BlockOk(m, raw, p, live[p]);
    }
    HeapKept(m, w, raw, live, raw2, live2);
  }

  /** A block whose memory is apart from every other, laid out, joins the heap. */
  lemma BlockJoins(w: Bytes, v: Bytes, raw: Raw, live: Live, b: Block)
    requires HeapOk(w, raw, live) && Sane(b) && LaidOut(w, v, b) && LowBitsZero(DataOf(b), b.power)
    requires forall x | x in raw :: Apart(b.base, Extent(b), x, raw[x])
    ensures SameRaw(w, v, raw) && SamePayloads(w, v, live)
    ensures DataOf(b) !in live
    ensures HeapOk(v, raw[b.base := Extent(b)], live[DataOf(b) := b])
  {
    forall x | x in raw ensures x + raw[x] <= |w| && v[x..x + raw[x]] == w[x..x + raw[x]] {
      ReplacedKeeps(w, v, b.base, v[b.base..b.base + Extent(b)], x, raw[x]);
    }
    LiveBases(w, raw, live);
    HeapKept(w, v, raw, live, raw, live);
    NewPointer(w, raw, live, b);
    JoinOk(v, raw, live, b);
  }

  lemma NewPointer(w: Bytes, raw: Raw, live: Live, b: Block)
    requires HeapOk(w, raw, live) && Sane(b)
    requires forall x | x in raw :: Apart(b.base, Extent(b), x, raw[x])
    ensures DataOf(b) !in live
    ensures forall q | q in live :: live[q].base != b.base
  {
    forall q | q in live ensures q != DataOf(b) && live[q].base != b.base {
      LivePointer(w, raw, live, q);
    }
  }

  lemma JoinOk(v: Bytes, raw: Raw, live: Live, b: Block)
    requires HeapOk(v, raw, live) && Sane(b) && DataOf(b) !in live && LowBitsZero(DataOf(b), b.power)
    requires b.base + Extent(b) <= |v| && Formatted(v[b.base..b.base + Extent(b)], b)
    requires forall x | x in raw :: Apart(b.base, Extent(b), x, raw[x])
    ensures HeapOk(v, raw[b.base := Extent(b)], live[DataOf(b) := b])
  {
    var raw2, live2 := raw[b.base := Extent(b)], live[DataOf(b) := b];
    JoinRaw(raw, b, |v|);
    NewPointer(v, raw, live, b);
    forall q | q in live2 ensures BlockOk(v, raw2, q, live2[q]) {
      if q != DataOf(b) {
        JoinKeeps(v, raw, live, b, q);
      }
    }
  }

  lemma JoinKeeps(v: Bytes, raw: Raw, live: Live, b: Block, q: nat)
    requires HeapOk(v, raw, live) && q in live && live[q].base != b.base
    ensures BlockOk(v, raw[b.base := Extent(b)], q, live[q])
  {
    assert BlockOk(v, raw, q, live[q]);
  }

  lemma JoinRaw(raw: Raw, b: Block, n: nat)
    requires RawOk(raw, n) && b.base + Extent(b) <= n
    requires forall x | x in raw :: Apart(b.base, Extent(b), x, raw[x])
    ensures RawOk(raw[b.base := Extent(b)], n)
  {
  }

  // ----- allocation as a whole

  /** What the allocation at ptr means to its reallocation. */
  function Earlier(live: Live, keep: bool, ptr: nat): Before
    requires keep ==> ptr in live
  {
    if keep then Before(true, live[ptr].shift, live[ptr].size) else Before(false, 0, 0)
  }

  /** Two stretches that agree agree on any part. */
  lemma PartsAgree(m: Bytes, w: Bytes, x: nat, y: nat, k: nat, s: nat, n: nat)
    requires x + k <= |m| && y + k <= |w| && w[y..y + k] == m[x..x + k] && s + n <= k
    ensures w[y + s..y + s + n] == m[x + s..x + s + n]
  {
    SliceOfSlice(w, y, y + k, s, s + n);
    SliceOfSlice(m, x, x + k, s, s + n);
  }

  lemma HandedOverFits(a: Block, b: Block, n: nat)
    requires Sane(a) && a.power <= b.power && n == Min(a.size, b.size)
    ensures a.shift + n <= Min(Extent(a), Extent(b))
  {
    Pow2Monotone(a.power, b.power);
  }

  /** The system hands the old payload over, as far as both sizes reach. */
  lemma HandedOverPayload(m: Bytes, w: Bytes, raw: Raw, live: Live, ptr: nat, b: Block, n: nat)
    requires HeapOk(m, raw, live) && ptr in live && live[ptr].power <= b.power && n == Min(live[ptr].size, b.size)
    requires HandedOver(m, w, raw, live[ptr].base, b.base, Extent(b))
    ensures live[ptr].shift + n <= Extent(b) && b.base + Extent(b) <= |w| && ptr + n <= |m|
    ensures w[b.base + live[ptr].shift..b.base + live[ptr].shift + n] == m[ptr..ptr + n]
  {
    var a := live[ptr];
    LivePointer(m, raw, live, ptr);
    HandedOverFits(a, b, n);
    PartsAgree(m, w, a.base, b.base, Min(Extent(a), Extent(b)), a.shift, n);
  }

  /** The old payload, as far as both sizes reach, is at the new place, but for the back-link where that came across it. */
  predicate PayloadKept(m: Bytes, a: Block, ptr: nat, v: Bytes, b: Block, p: nat) {
    var n := Min(a.size, b.size);
    && n <= |Payload(v, p, b)| && n <= |Payload(m, ptr, a)|
    && Payload(v, p, b)[..n] == UnderLink(Payload(m, ptr, a)[..n], a.shift, b.shift, LE(b.base, 8))
  }

  /** The heap after an allocation: the invariant, the other payloads, the kept payload and the cleared tail. */
  predicate Allocated(m: Bytes, raw: Raw, live: Live, keep: bool, ptr: nat, b: Block, zero: bool, v: Bytes)
    requires keep ==> ptr in live
  {
    var stay := Staying(live, keep, ptr);
    && DataOf(b) !in stay && |Payload(v, DataOf(b), b)| == b.size
    && HeapOk(v, Without(raw, GivenBack(live, keep, ptr))[b.base := Extent(b)], stay[DataOf(b) := b])
    && SameRaw(m, v, Without(raw, GivenBack(live, keep, ptr))) && SamePayloads(m, v, stay)
    && (keep ==> PayloadKept(m, live[ptr], ptr, v, b, DataOf(b)))
    && (zero ==> AllZero(Tail(Payload(v, DataOf(b), b), Earlier(live, keep, ptr))))
  }

  lemma LaidJoins(m: Bytes, raw: Raw, live: Live, keep: bool, ptr: nat, b: Block, w: Bytes, v: Bytes)
    requires HeapOk(m, raw, live) && Sane(b) && LowBitsZero(DataOf(b), b.power) && (keep ==> ptr in live)
    requires Granted(m, w, raw, GivenBack(live, keep, ptr), b.base, Extent(b))
    requires LaidOut(w, v, b)
    ensures DataOf(b) !in Staying(live, keep, ptr)
    ensures HeapOk(v, Without(raw, GivenBack(live, keep, ptr))[b.base := Extent(b)], Staying(live, keep, ptr)[DataOf(b) := b])
    ensures SameRaw(m, v, Without(raw, GivenBack(live, keep, ptr))) && SamePayloads(m, v, Staying(live, keep, ptr))
  {
    var raw2, stay := Without(raw, GivenBack(live, keep, ptr)), Staying(live, keep, ptr);
    GrantKeeps(m, w, raw, live, keep, ptr, b.base, Extent(b));
    BlockJoins(w, v, raw2, stay, b);
    SameTwice(m, w, v, raw2, stay);
  }

  lemma SameTwice(m: Bytes, w: Bytes, v: Bytes, raw: Raw, live: Live)
    requires SameRaw(m, w, raw) && SameRaw(w, v, raw) && SamePayloads(m, w, live) && SamePayloads(w, v, live)
    ensures SameRaw(m, v, raw) && SamePayloads(m, v, live)
  {
  }

  lemma KeptPayload(m: Bytes, raw: Raw, live: Live, ptr: nat, b: Block, w: Bytes, v: Bytes, n: nat)
    requires HeapOk(m, raw, live) && ptr in live && live[ptr].power <= b.power && n == Min(live[ptr].size, b.size)
    requires HandedOver(m, w, raw, live[ptr].base, b.base, Extent(b))
    requires LaidKept(w, b.base + live[ptr].shift, v, DataOf(b), b, n) && DataOf(b) + b.size <= |v|
    ensures PayloadKept(m, live[ptr], ptr, v, b, DataOf(b))
  {
    LivePointer(m, raw, live, ptr);
    HandedOverPayload(m, w, raw, live, ptr, b, n);
    KeptFrom(m, live[ptr], ptr, v, b, DataOf(b), n, m[ptr..ptr + n]);
  }

  lemma KeptFrom(m: Bytes, a: Block, ptr: nat, v: Bytes, b: Block, p: nat, n: nat, x: Bytes)
    requires ptr + a.size <= |m| && p + b.size <= |v| && n == Min(a.size, b.size) && x == m[ptr..ptr + n]
    requires v[p..p + n] == UnderLink(x, a.shift, b.shift, LE(b.base, 8))
    ensures PayloadKept(m, a, ptr, v, b, p)
  {
    PayloadStart(m, ptr, a, n);
    PayloadStart(v, p, b, n);
  }

  lemma PayloadStart(m: Bytes, p: nat, b: Block, n: nat)
    requires p + b.size <= |m| && n <= b.size
    ensures |Payload(m, p, b)| == b.size && Payload(m, p, b)[..n] == m[p..p + n]
  {
    SliceOfSlice(m, p, p + b.size, 0, n);
  }

  lemma EarlierFits(m: Bytes, raw: Raw, live: Live, ptr: nat, b: Block)
    requires HeapOk(m, raw, live) && ptr in live && live[ptr].power <= b.power
    ensures HEADER <= live[ptr].shift && live[ptr].shift + Min(live[ptr].size, b.size) <= Extent(b)
  {
    LivePointer(m, raw, live, ptr);
    HandedOverFits(live[ptr], b, Min(live[ptr].size, b.size));
  }

  /** What the writes promise of the new block, v being memory after them, is what the heap needs. */
  lemma AllocatedFrom(m: Bytes, raw: Raw, live: Live, keep: bool, ptr: nat, b: Block, w: Bytes, zero: bool, v: Bytes)
    requires HeapOk(m, raw, live) && Sane(b) && LowBitsZero(DataOf(b), b.power)
    requires keep ==> ptr in live && live[ptr].power <= b.power
    requires Granted(m, w, raw, GivenBack(live, keep, ptr), b.base, Extent(b))
    requires Laid(w, v, b, Earlier(live, keep, ptr), zero)
    ensures Allocated(m, raw, live, keep, ptr, b, zero, v)
  {
    LaidJoins(m, raw, live, keep, ptr, b, w, v);
    if keep {
      LaidKeeps(m, raw, live, ptr, b, w, zero, v);
    }
  }

  lemma LaidKeeps(m: Bytes, raw: Raw, live: Live, ptr: nat, b: Block, w: Bytes, zero: bool, v: Bytes)
    requires HeapOk(m, raw, live) && ptr in live && live[ptr].power <= b.power
    requires HandedOver(m, w, raw, live[ptr].base, b.base, Extent(b))
    requires Laid(w, v, b, Earlier(live, true, ptr), zero)
    ensures PayloadKept(m, live[ptr], ptr, v, b, DataOf(b))
  {
    KeptPayload(m, raw, live, ptr, b, w, v, Min(live[ptr].size, b.size));
  }

  lemma PlacedKeeps(m: Bytes, raw: Raw, live: Live, keep: bool, ptr: nat, b: Block, w: Bytes, zero: bool, o: Before)
    requires HeapOk(m, raw, live) && Sane(b) && LowBitsZero(DataOf(b), b.power)
    requires keep ==> ptr in live && live[ptr].power <= b.power
    requires Granted(m, w, raw, GivenBack(live, keep, ptr), b.base, Extent(b))
    requires o == Earlier(live, keep, ptr) && Contained(b, o)
    ensures Allocated(m, raw, live, keep, ptr, b, zero, Placed(w, b, o, zero))
  {
    if keep {
      EarlierFits(m, raw, live, ptr, b);
    }
    PlacedIsLaid(w, b, o, zero);
    AllocatedFrom(m, raw, live, keep, ptr, b, w, zero, Placed(w, b, o, zero));
  }

  // ----- the user's writes

  lemma StoreStays(m: Bytes, raw: Raw, live: Live, p: nat)
    requires HeapOk(m, raw, live) && p in live
    ensures HeapOk(m, raw - {live[p].base}, live - {p})
    ensures forall x | x in raw - {live[p].base} :: Apart(live[p].base, Extent(live[p]), x, raw[x])
    ensures LaidOut(m, m, live[p]) && LowBitsZero(DataOf(live[p]), live[p].power)
  {
    LivePointer(m, raw, live, p);
    LiveBases(m, raw, live);
    HeapKept(m, m, raw, live, raw - {live[p].base}, live - {p});
    assert BlockOk(m, raw, p, live[p]);
  }

  lemma PayloadWritten(m: Bytes, p: nat, b: Block, k: nat, data: Bytes)
    requires p + b.size <= |m| && k + |data| <= b.size
    ensures Payload(Write(m, p + k, data), p, b) == Write(Payload(m, p, b), k, data)
  {
    WriteInside(m, p + k, data, p, b.size);
  }

  lemma Rejoins(m: Bytes, v: Bytes, raw: Raw, live: Live, p: nat)
    requires HeapOk(m, raw, live) && p in live && LaidOut(m, v, live[p])
    ensures HeapOk(v, raw, live) && SamePayloads(m, v, live - {p})
  {
    var b := live[p];
    PutBack(m, raw, live, p);
    StoreStays(m, raw, live, p);
    BlockJoins(m, v, raw - {b.base}, live - {p}, b);
  }

  lemma PutBack(m: Bytes, raw: Raw, live: Live, p: nat)
    requires HeapOk(m, raw, live) && p in live
    ensures Sane(live[p]) && p == DataOf(live[p])
    ensures (raw - {live[p].base})[live[p].base := Extent(live[p])] == raw
    ensures (live - {p})[p := live[p]] == live
  {
    LivePointer(m, raw, live, p);
  }

  /** A write inside a payload changes that payload and nothing the heap depends on. */
  lemma StoreKeeps(m: Bytes, raw: Raw, live: Live, p: nat, k: nat, data: Bytes)
    requires HeapOk(m, raw, live) && p in live && k + |data| <= live[p].size
    ensures HeapOk(Write(m, p + k, data), raw, live)
    ensures SamePayloads(m, Write(m, p + k, data), live - {p})
    ensures Payload(Write(m, p + k, data), p, live[p]) == Write(Payload(m, p, live[p]), k, data)
  {
    LivePointer(m, raw, live, p);
    StoreStays(m, raw, live, p);
    WriteInData(m, m, live[p], p + k, data);
    Rejoins(m, Write(m, p + k, data), raw, live, p);
    PayloadWritten(m, p, live[p], k, data);
  }

  lemma FreeApart(m: Bytes, raw: Raw, live: Live, p: nat, w: Bytes, d: Bytes)
    requires HeapOk(m, raw, live) && p in live
    requires |d| == Extent(live[p]) && Replaced(m, w, live[p].base, d)
    ensures SameRaw(m, w, raw - {live[p].base})
  {
    LivePointer(m, raw, live, p);
    ReplacedSameRaw(m, w, raw, live[p].base, d);
  }

  lemma WriteReplaces(m: Bytes, base: nat, n: nat, data: Bytes)
    requires base + n <= |m| && |data| <= n
    ensures Replaced(m, Write(m, base, data), base, Write(m[base..base + n], 0, data))
  {
    ReplacedSelf(m, base, n);
    ReplacedWrite(m, m, base, m[base..base + n], 0, data);
  }

  lemma ReplacedSameRaw(m: Bytes, w: Bytes, raw: Raw, base: nat, d: Bytes)
    requires RawOk(raw, |m|) && base in raw && |d| == raw[base] && Replaced(m, w, base, d)
    ensures SameRaw(m, w, raw - {base})
  {
    var rest := raw - {base};
    forall x | x in rest && x + rest[x] <= |m| ensures w[x..x + rest[x]] == m[x..x + rest[x]] {
      RawApart(raw, |m|, x, base);
      ReplacedKeeps(m, w, base, d, x, rest[x]);
    }
  }

  lemma RawApart(raw: Raw, n: nat, x: nat, y: nat)
    requires RawOk(raw, n) && x in raw && y in raw && x != y
    ensures Apart(x, raw[x], y, raw[y])
  {
  }

  /** Giving a block back leaves the others alone, whatever becomes of its bytes. */
  lemma FreeKeeps(m: Bytes, raw: Raw, live: Live, p: nat, junk: Bytes)
    requires HeapOk(m, raw, live) && p in live && |junk| <= Extent(live[p])
    ensures HeapOk(Write(m, live[p].base, junk), raw - {live[p].base}, live - {p})
    ensures SamePayloads(m, Write(m, live[p].base, junk), live - {p})
  {
    var b := live[p];
    LivePointer(m, raw, live, p);
    WriteReplaces(m, b.base, Extent(b), junk);
    FreeApart(m, raw, live, p, Write(m, b.base, junk), Write(m[b.base..b.base + Extent(b)], 0, junk));
    StoreStays(m, raw, live, p);
    LiveBases(m, raw, live);
    HeapKept(m, Write(m, live[p].base, junk), raw, live, raw - {live[p].base}, live - {p});
  }

  lemma PayloadIs(m: Bytes, raw: Raw, live: Live, p: nat)
    requires HeapOk(m, raw, live) && p in live
    ensures p + live[p].size <= |m| && Payload(m, p, live[p]) == m[p..p + live[p].size]
    ensures |Payload(m, p, live[p])| == live[p].size && p != NULL
  {
    LivePointer(m, raw, live, p);
  }

  lemma SameChain(m: Bytes, w: Bytes, v: Bytes, live1: Live, live2: Live, live: Live)
    requires SamePayloads(m, w, live1) && SamePayloads(w, v, live2)
    requires forall q | q in live :: q in live1 && q in live2 && live1[q] == live[q] && live2[q] == live[q]
    ensures SamePayloads(m, v, live)
  {
    forall q | q in live ensures Payload(v, q, live[q]) == Payload(m, q, live[q]) {
      assert Payload(w, q, live1[q]) == Payload(m, q, live1[q]);
      assert Payload(v, q, live2[q]) == Payload(w, q, live2[q]);
    }
  }
}
