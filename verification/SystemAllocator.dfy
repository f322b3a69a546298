/** malloc_, free_ and size_ of the system allocator, and vsc_xalloc_ex on top of an allocator. */
module SystemAllocator {
  import opened Machine
  import opened Memory
  import opened AllocatorBlock
  import opened Allocator

  /** An answer of the system: an address, and memory as it is then. */
  datatype Grant = Grant(at: nat, after: Bytes)

  /** The alignment after the enforced minimum. */
  function AtLeastWord(alignment: nat): nat {
    if alignment < 8 then 8 else alignment
  }

  lemma Pow2Of64()
    ensures Pow2(64) == ADDRESS_SPACE
  {
    Pow2Add(8, 8);
    Pow2Add(16, 16);
    Pow2Add(32, 32);
    Pow2Of8();
  }

  lemma Pow2Of8()
    ensures Pow2(8) == 256
  {
  }

  lemma PotPower(alignment: nat)
    requires IsPot(alignment) && alignment < ADDRESS_SPACE
    ensures Pow2(Ctz(AtLeastWord(alignment))) == AtLeastWord(alignment) && 3 <= Ctz(AtLeastWord(alignment)) < 64
  {
    Pow2Eight();
    CtzPow2(3);
    var k: nat :| alignment == Pow2(k);
    CtzPow2(k);
    Pow2Monotone(3, k);
    Pow2Monotone(64, k);
    Pow2Of64();
  }

  /** The block an allocation of size bytes makes at an address. */
  function NewBlock(at: nat, size: nat, alignment: nat): Block
    requires alignment > 0
  {
    var a := AtLeastWord(alignment);
    Block(at, size, Ctz(a), Hdr2Mem(at, a) - at)
  }

  lemma NewBlockSane(at: nat, size: nat, alignment: nat)
    requires IsPot(alignment) && alignment < ADDRESS_SPACE && Aligned(at, 8)
    requires at + HEADER + size + AtLeastWord(alignment) <= ADDRESS_SPACE
    ensures Hdr2Mem(at, AtLeastWord(alignment)) >= at + HEADER
    ensures Sane(NewBlock(at, size, alignment)) && Extent(NewBlock(at, size, alignment)) == HEADER + size + AtLeastWord(alignment)
    ensures LowBitsZero(DataOf(NewBlock(at, size, alignment)), Ctz(AtLeastWord(alignment)))
    ensures Aligned(DataOf(NewBlock(at, size, alignment)), AtLeastWord(alignment))
  {
    var a := AtLeastWord(alignment);
    PotPower(alignment);
    Hdr2MemSane(at, size, Ctz(a), Hdr2Mem(at, a));
    LowBitsAligned(Hdr2Mem(at, a), Ctz(a));
  }

  /** What an alignment as the caller gives it comes to: the enforced minimum, the bytes requested, and where the data goes. */
  lemma AlignmentInForce(at: nat, size: nat, alignment: nat)
    requires IsPot(alignment) && alignment < ADDRESS_SPACE
    ensures var b, al := NewBlock(at, size, alignment), if alignment < 8 then 8 else alignment;
      && Pow2(b.power) == al && (alignment < 8 ==> b.power == 3)
      && b.base == at && b.size == size && Extent(b) == 24 + size + al
      && at + 24 <= DataOf(b) < at + 24 + al && Aligned(DataOf(b), al)
  {
    PotPower(alignment);
    Pow2Eight();
    CtzPow2(3);
    AlignUpLeast(at + HEADER, AtLeastWord(alignment));
  }

  /**
   * The heap (v, raw, live) is the heap (m, raw0, live0) after an allocation of b in the memory w the system left:
   * what is written in every case, and what that means when the move is contained.
   */
  predicate Exchanged(m: Bytes, raw0: Raw, live0: Live, keep: bool, ptr: nat, b: Block, zero: bool,
                      w: Bytes, v: Bytes, raw: Raw, live: Live)
  {
    && (keep ==> ptr in live0) && b.shift >= 8
    && v == Placed(w, b, Earlier(live0, keep, ptr), zero)
    && raw == Without(raw0, GivenBack(live0, keep, ptr))[b.base := Extent(b)]
    && live == Staying(live0, keep, ptr)[DataOf(b) := b]
    && (Contained(b, Earlier(live0, keep, ptr)) ==>
      HeapOk(v, raw, live) && Allocated(m, raw0, live0, keep, ptr, b, zero, v))
  }

  lemma AdoptKeeps(m: Bytes, raw: Raw, live: Live, keep: bool, ptr: nat, b: Block, o: Before, zero: bool, w: Bytes)
    requires HeapOk(m, raw, live) && Sane(b) && LowBitsZero(DataOf(b), b.power)
    requires keep ==> ptr in live && live[ptr].power <= b.power
    requires o == Earlier(live, keep, ptr)
    requires Granted(m, w, raw, GivenBack(live, keep, ptr), b.base, Extent(b))
    ensures Exchanged(m, raw, live, keep, ptr, b, zero, w, Placed(w, b, o, zero),
                      Without(raw, GivenBack(live, keep, ptr))[b.base := Extent(b)], Staying(live, keep, ptr)[DataOf(b) := b])
  {
    if Contained(b, o) {
      PlacedKeeps(m, raw, live, keep, ptr, b, w, zero, o);
    }
  }

  class Heap {
    var mem: Bytes
    ghost var raw: Raw
    ghost var live: Live

    ghost predicate Valid()
      reads this
    {
      HeapOk(mem, raw, live)
    }

    constructor (memory: Bytes, system: Raw)
      requires |memory| <= ADDRESS_SPACE && RawOk(system, |memory|)
      ensures Valid() && mem == memory && raw == system && live == map[]
    {
      mem, raw, live := memory, system, map[];
    }

    /** What the header of a live pointer says. */
    method ReadHeader(ptr: nat) returns (hdr: nat, size: nat, power: nat)
      requires Valid() && ptr in live
      ensures hdr == live[ptr].base && size == live[ptr].size && power == live[ptr].power
      ensures ptr - hdr == live[ptr].shift
    {
      LiveHeader(mem, raw, live, ptr);
      hdr := Mem2Hdr(mem, ptr);
      size, power := Word(mem, hdr), Word(mem, hdr + 8) % 256;
    }

    /** Fills in a new block: link and header, payload, zeros. */
    method Place(b: Block, o: Before, zero: bool)
      requires b.shift >= HEADER
      modifies this`mem
      ensures mem == Placed(old(mem), b, o, zero)
    {
      if b.shift != HEADER {
        mem := Write(mem, b.base + b.shift - 8, LE(b.base, 8));
      }
      mem := WriteWords(mem, b.base, [b.size, b.power, SIG]);
      if o.keep && o.shift != b.shift {
        mem := Write(mem, DataOf(b), Read(mem, b.base + o.shift, o.size));
      }
      var done := if o.keep then o.size else 0;
      if zero && b.size > done {
        mem := Write(mem, DataOf(b) + done, ZeroBytes(b.size - done));
      }
    }

    /** Lays the new block out in what the system handed over. */
    method Adopt(keep: bool, ptr: nat, b: Block, o: Before, zero: bool, after: Bytes)
      requires Valid() && Sane(b) && LowBitsZero(DataOf(b), b.power)
      requires keep ==> ptr in live && live[ptr].power <= b.power
      requires o == Earlier(live, keep, ptr)
      requires Granted(mem, after, raw, GivenBack(live, keep, ptr), b.base, Extent(b))
      modifies this
      ensures Exchanged(old(mem), old(raw), old(live), keep, ptr, b, zero, after, mem, raw, live)
    {
      AdoptKeeps(mem, raw, live, keep, ptr, b, o, zero, after);
      mem := after;
      Place(b, o, zero);
      raw := Without(raw, GivenBack(live, keep, ptr))[b.base := Extent(b)];
      live := Staying(live, keep, ptr)[DataOf(b) := b];
    }

    method LayOut(at: nat, size: nat, alignment: nat) returns (b: Block)
      requires IsPot(alignment) && alignment < ADDRESS_SPACE && Aligned(at, 8)
      requires at + HEADER + size + AtLeastWord(alignment) <= ADDRESS_SPACE
      ensures b == NewBlock(at, size, alignment) && Sane(b) && LowBitsZero(DataOf(b), b.power)
      ensures b.base == at && b.power == Ctz(AtLeastWord(alignment)) && Extent(b) == HEADER + size + AtLeastWord(alignment)
    {
      NewBlockSane(at, size, alignment);
      var a := AtLeastWord(alignment);
      var p := Hdr2Mem(at, a);
      b := Block(at, size, Ctz(a), p - at);
    }

    method Renew(keep: bool, ptr: nat, size: nat, alignment: nat, o: Before, zero: bool, grant: Grant) returns (p: nat)
      requires Valid() && IsPot(alignment) && alignment < ADDRESS_SPACE
      requires keep ==> ptr in live && live[ptr].power <= Ctz(AtLeastWord(alignment))
      requires o == Earlier(live, keep, ptr)
      requires Granted(mem, grant.after, raw, GivenBack(live, keep, ptr), grant.at, HEADER + size + AtLeastWord(alignment))
      modifies this
      ensures p == DataOf(NewBlock(grant.at, size, alignment))
      ensures Exchanged(old(mem), old(raw), old(live), keep, ptr, NewBlock(grant.at, size, alignment), zero,
                        grant.after, mem, raw, live)
    {
      var b := LayOut(grant.at, size, alignment);
      p := DataOf(b);
      Adopt(keep, ptr, b, o, zero, grant.after);
    }

    /**
     * malloc_: a new block, or with realloc set, one in exchange for the block at ptr. The comparison with the old
     * alignment shifts a 32-bit 1, which C defines for powers below 32 only.
     */
    method Malloc(ptr: nat, size: nat, alignment: nat, realloc: bool, zero: bool, grant: Option<Grant>)
        returns (status: Status, p: nat)
      requires Valid() && IsPot(alignment) && alignment < ADDRESS_SPACE
      requires realloc && ptr != NULL ==> ptr in live && live[ptr].power < 32
      requires grant.Some? ==>
        Granted(mem, grant.value.after, raw, GivenBack(live, realloc && ptr != NULL, ptr),
                grant.value.at, 24 + size + if alignment < 8 then 8 else alignment)
      modifies this
      ensures status == EINVAL <==>
        realloc && ptr != NULL && (if alignment < 8 then 8 else alignment) < Pow2(old(live)[ptr].power)
      ensures status == ENOMEM <==> status != EINVAL && grant.None?
      ensures status == Ok || status == EINVAL || status == ENOMEM
      ensures status != Ok ==> p == ptr && mem == old(mem) && raw == old(raw) && live == old(live)
      ensures status == Ok ==> grant.Some? && p == DataOf(NewBlock(grant.value.at, size, alignment))
      ensures status == Ok ==> p in live && live[p].base == grant.value.at && live[p].size == size
      ensures status == Ok ==> Pow2(live[p].power) == (if alignment < 8 then 8 else alignment)
      ensures status == Ok ==> Aligned(p, if alignment < 8 then 8 else alignment)
      ensures status == Ok ==> Exchanged(old(mem), old(raw), old(live), realloc && ptr != NULL, ptr,
                                         NewBlock(grant.value.at, size, alignment), zero, grant.value.after, mem, raw, live)
    {
      var a := AtLeastWord(alignment);
      PotPower(alignment);
      var keep := realloc && ptr != NULL;
      var o := Before(false, 0, 0);
      if keep {
        var hdr, oldsize, power := ReadHeader(ptr);
        if a < Pow2(power) {
          return EINVAL, ptr;
        }
        o := Before(true, ptr - hdr, oldsize);
        Pow2Monotone(power, Ctz(a));
      }
      if grant.None? {
        return ENOMEM, ptr;
      }
      p := Renew(keep, ptr, size, alignment, o, zero, grant.value);
      AlignmentInForce(grant.value.at, size, alignment);
      status := Ok;
    }

    /** free_. What the system does to the bytes of the block it gets back is junk. */
    method Free(p: nat, junk: Bytes)
      requires Valid() && (p != NULL ==> p in live && |junk| <= Extent(live[p]))
      modifies this
      ensures Valid()
      ensures p == NULL ==> mem == old(mem) && raw == old(raw) && live == old(live)
      ensures p != NULL ==> raw == old(raw) - {old(live)[p].base} && live == old(live) - {p}
      ensures SamePayloads(old(mem), mem, live)
    {
      if p == NULL {
        return;
      }
      FreeKeeps(mem, raw, live, p, junk);
      LiveHeader(mem, raw, live, p);
      var hdr: nat := Mem2Hdr(mem, p);
      mem := Write(mem, hdr, junk);
      raw := raw - {hdr};
      live := live - {p};
    }

    /** size_ */
    method Size(p: nat) returns (size: nat)
      requires Valid() && (p != NULL ==> p in live)
      ensures size == if p == NULL then 0 else live[p].size
    {
      if p == NULL {
        return 0;
      }
      LiveHeader(mem, raw, live, p);
      size := Word(mem, Mem2Hdr(mem, p));
    }

    /** The user reads a whole payload. */
    method Fetch(p: nat, size: nat) returns (data: Bytes)
      requires Valid() && p in live && size == live[p].size
      ensures data == Payload(mem, p, live[p]) && |data| == size && p != NULL
    {
      PayloadIs(mem, raw, live, p);
      data := mem[p..p + size];
    }

    /** The user writes data into a payload. */
    method Store(p: nat, k: nat, data: Bytes)
      requires Valid() && p in live && k + |data| <= live[p].size
      modifies this`mem
      ensures Valid() && SamePayloads(old(mem), mem, live - {p})
      ensures Payload(mem, p, live[p]) == Write(Payload(old(mem), p, live[p]), k, data)
    {
      StoreKeeps(mem, raw, live, p, k, data);
      mem := Write(mem, p + k, data);
    }

    /** A new block, whatever *ptr was: what malloc_ does without the realloc flag. */
    method Fresh(ptr: nat, size: nat, alignment: nat, zero: bool, grant: Option<Grant>) returns (status: Status, p: nat)
      requires Valid() && IsPot(alignment) && alignment < ADDRESS_SPACE
      requires grant.Some? ==>
        Granted(mem, grant.value.after, raw, None, grant.value.at, HEADER + size + AtLeastWord(alignment))
      modifies this
      ensures Valid() && SamePayloads(old(mem), mem, old(live))
      ensures status == (if grant.Some? then Ok else ENOMEM)
      ensures status != Ok ==> p == ptr && mem == old(mem) && raw == old(raw) && live == old(live)
      ensures status == Ok ==> p !in old(live) && p in live && live == old(live)[p := live[p]]
      ensures status == Ok ==> live[p].size == size && live[p].power == Ctz(AtLeastWord(alignment))
      ensures status == Ok ==> |Payload(mem, p, live[p])| == size && (zero ==> AllZero(Payload(mem, p, live[p])))
    {
      status, p := Malloc(ptr, size, alignment, false, zero, grant);
      if status == Ok {
        ExchangedPlain(old(mem), old(raw), old(live), ptr, NewBlock(grant.value.at, size, alignment), zero,
                       grant.value.after, mem, raw, live);
      }
    }

    /**
     * The emulated reallocation of vsc_xalloc_ex, for an allocator that cannot do it itself: a block that is large
     * enough stays, otherwise allocate, copy, free.
     */
    method Emulate(ptr: nat, size: nat, alignment: nat, zero: bool, grant: Option<Grant>, junk: Bytes)
        returns (status: Status, p: nat)
      requires Valid() && IsPot(alignment) && alignment < ADDRESS_SPACE
      requires ptr in live && |junk| <= Extent(live[ptr])
      requires grant.Some? ==>
        Granted(mem, grant.value.after, raw, None, grant.value.at, HEADER + size + AtLeastWord(alignment))
      modifies this
      ensures Valid()
      ensures status == (if size <= old(live)[ptr].size || grant.Some? then Ok else ENOMEM)
      ensures size <= old(live)[ptr].size || status != Ok ==>
        p == ptr && mem == old(mem) && raw == old(raw) && live == old(live)
      ensures size > old(live)[ptr].size && status == Ok ==>
        p in live && live == old(live)[p := live[p]] - {ptr}
        && live[p].size == size && live[p].power == Ctz(AtLeastWord(alignment))
        && Copied(Payload(old(mem), ptr, old(live)[ptr]), Payload(mem, p, live[p]), zero)
      ensures SamePayloads(old(mem), mem, old(live) - {ptr})
    {
      PayloadIs(mem, raw, live, ptr);
      var msize := Size(ptr);
      if size <= msize {
        return Ok, ptr;
      }
      status, p := Fresh(ptr, size, alignment, zero, grant);
      if status == Ok {
        assert live[ptr] == old(live)[ptr];
        Relocate(old(mem), old(live), ptr, p, msize, zero, junk);
      }
    }

    /** Moves what was at ptr to the new block at p and frees it; before and live0 are the heap before p was made. */
    method Relocate(ghost before: Bytes, ghost live0: Live, ptr: nat, p: nat, msize: nat, zero: bool, junk: Bytes)
      requires Valid() && ptr in live && p in live && p != ptr && |junk| <= Extent(live[ptr])
      requires msize == live[ptr].size <= live[p].size && (zero ==> AllZero(Payload(mem, p, live[p])))
      requires ptr in live0 && p !in live0 && live == live0[p := live[p]] && SamePayloads(before, mem, live0)
      modifies this
      ensures Valid() && live == old(live) - {ptr} && raw == old(raw) - {old(live)[ptr].base}
      ensures SamePayloads(before, mem, live0 - {ptr})
      ensures Copied(Payload(before, ptr, live0[ptr]), Payload(mem, p, live[p]), zero)
    {
      ghost var w := mem;
      assert Payload(w, ptr, live0[ptr]) == Payload(before, ptr, live0[ptr]);
      CopyAndFree(ptr, p, msize, zero, junk);
      SameChain(before, w, mem, live0, live - {p}, live0 - {ptr});
    }

    method CopyAndFree(ptr: nat, p: nat, msize: nat, zero: bool, junk: Bytes)
      requires Valid() && ptr in live && p in live && p != ptr && |junk| <= Extent(live[ptr])
      requires msize == live[ptr].size <= live[p].size && (zero ==> AllZero(Payload(mem, p, live[p])))
      modifies this
      ensures Valid() && live == old(live) - {ptr} && raw == old(raw) - {old(live)[ptr].base}
      ensures SamePayloads(old(mem), mem, live - {p})
      ensures Copied(Payload(old(mem), ptr, old(live)[ptr]), Payload(mem, p, live[p]), zero)
    {
      ghost var m, live0 := mem, live;
      var data := Fetch(ptr, msize);
      PayloadIs(mem, raw, live, p);
      Store(p, 0, data);
      ghost var w := mem;
      Free(ptr, junk);
      CopyOutcome(m, w, mem, live0, ptr, p, zero);
    }
  }

  lemma ExchangedPlain(m: Bytes, raw0: Raw, live0: Live, ptr: nat, b: Block, zero: bool, w: Bytes, v: Bytes, raw: Raw, live: Live)
    requires Exchanged(m, raw0, live0, false, ptr, b, zero, w, v, raw, live)
    ensures HeapOk(v, raw, live) && SamePayloads(m, v, live0)
    ensures DataOf(b) !in live0 && live == live0[DataOf(b) := b]
    ensures |Payload(v, DataOf(b), b)| == b.size && (zero ==> AllZero(Payload(v, DataOf(b), b)))
  {
  }

  /** The new payload starts with the old one, and is otherwise zero when that was asked for. */
  predicate Copied(a: Bytes, b: Bytes, zero: bool) {
    |a| <= |b| && b[..|a|] == a && (zero ==> forall i | |a| <= i < |b| :: b[i] == 0)
  }

  lemma CopyOutcome(m: Bytes, w: Bytes, v: Bytes, live: Live, ptr: nat, p: nat, zero: bool)
    requires ptr in live && p in live && p != ptr
    requires SamePayloads(m, w, live - {p}) && SamePayloads(w, v, live - {ptr})
    requires Payload(w, p, live[p]) == Write(Payload(m, p, live[p]), 0, Payload(m, ptr, live[ptr]))
    requires |Payload(m, ptr, live[ptr])| <= |Payload(m, p, live[p])| && (zero ==> AllZero(Payload(m, p, live[p])))
    ensures SamePayloads(m, v, live - {ptr} - {p})
    ensures Copied(Payload(m, ptr, live[ptr]), Payload(v, p, live[p]), zero)
  {
    var stay := live - {ptr};
    CopiedBy(Payload(m, p, live[p]), Payload(m, ptr, live[ptr]), zero);
    SameChain(m, w, v, live - {p}, stay, stay - {p});
    assert Payload(v, p, stay[p]) == Payload(w, p, stay[p]);
  }

  lemma CopiedBy(b: Bytes, a: Bytes, zero: bool)
    requires |a| <= |b| && (zero ==> AllZero(b))
    ensures Copied(a, Write(b, 0, a), zero)
  {
    WriteReads(b, 0, a);
    forall i | |a| <= i < |b| ensures Write(b, 0, a)[i] == b[i] {
      WriteAt(b, 0, a, i);
    }
  }
}
