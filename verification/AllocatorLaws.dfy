/** What a caller of the system allocator can count on, and where a reallocation keeps less. */
module AllocatorLaws {
  import opened Memory
  import opened AllocatorBlock
  import opened Allocator
  import opened SystemAllocator
  import opened AllocatorShifts

  /** A reallocation that does not shrink moves its payload inside the new block, whatever the two shifts are. */
  lemma GrowingIsContained(a: Block, b: Block)
    requires Sane(a) && Sane(b) && a.power <= b.power && a.size <= b.size
    ensures Contained(b, Before(true, a.shift, a.size))
  {
    Pow2Monotone(a.power, b.power);
  }

  /** With the shift unchanged nothing is moved, so shrinking is contained too. */
  lemma SameShiftIsContained(a: Block, b: Block)
    requires a.shift == b.shift
    ensures Contained(b, Before(true, a.shift, a.size))
  {
  }

  /** The bytes both sizes reach come through a reallocation when the link cannot come across them. */
  lemma ReallocKeeps(m: Bytes, raw: Raw, live: Live, ptr: nat, b: Block, zero: bool, v: Bytes)
    requires ptr in live && Allocated(m, raw, live, true, ptr, b, zero, v)
    requires Clear(live[ptr].shift, b.shift, Min(live[ptr].size, b.size))
    ensures var n := Min(live[ptr].size, b.size);
      n <= |Payload(m, ptr, live[ptr])| && n <= |Payload(v, DataOf(b), b)|
      && Payload(v, DataOf(b), b)[..n] == Payload(m, ptr, live[ptr])[..n]
  {
    var n := Min(live[ptr].size, b.size);
    ClearKeeps(Payload(m, ptr, live[ptr])[..n], live[ptr].shift, b.shift, LE(b.base, 8));
  }

  /** When the alignment divides both raw addresses the shift depends on the alignment alone. */
  lemma FixedAlignmentKeepsShift(at: nat, at2: nat, size: nat, size2: nat, alignment: nat)
    requires alignment > 0 && Aligned(at, AtLeastWord(alignment)) && Aligned(at2, AtLeastWord(alignment))
    ensures Hdr2Mem(at, AtLeastWord(alignment)) - at == Hdr2Mem(at2, AtLeastWord(alignment)) - at2
    ensures NewBlock(at, size, alignment).shift == NewBlock(at2, size2, alignment).shift
  {
    AlignUpShift(at, HEADER, AtLeastWord(alignment));
    AlignUpShift(at2, HEADER, AtLeastWord(alignment));
  }

  /** So reallocating at a fixed alignment that divides the raw addresses always keeps the payload, growing or shrinking. */
  lemma FixedAlignmentKeepsPayload(m: Bytes, raw: Raw, live: Live, ptr: nat, at: nat, at2: nat, size: nat, size2: nat,
                                   alignment: nat, zero: bool, w: Bytes, v: Bytes, raw2: Raw, live2: Live)
    requires IsPot(alignment) && alignment < ADDRESS_SPACE
    requires Aligned(at, AtLeastWord(alignment)) && Aligned(at2, AtLeastWord(alignment))
    requires ptr in live && live[ptr] == NewBlock(at, size, alignment)
    requires Exchanged(m, raw, live, true, ptr, NewBlock(at2, size2, alignment), zero, w, v, raw2, live2)
    ensures HeapOk(v, raw2, live2)
    ensures var b, n := NewBlock(at2, size2, alignment), Min(size, size2);
      n <= |Payload(m, ptr, live[ptr])| && n <= |Payload(v, DataOf(b), b)|
      && Payload(v, DataOf(b), b)[..n] == Payload(m, ptr, live[ptr])[..n]
  {
    var b := NewBlock(at2, size2, alignment);
    FixedAlignmentKeepsShift(at, at2, size, size2, alignment);
    SameShiftIsContained(live[ptr], b);
    ReallocKeeps(m, raw, live, ptr, b, zero, v);
  }

  /**
   * A reallocation that passes both tests beforehand (AllocatorShifts.SafeExact, SurvivesExact) keeps the heap and
   * every byte both sizes reach, wherever a system that aligns to g puts it.
   */
  lemma CheckedReallocKeeps(m: Bytes, raw: Raw, live: Live, ptr: nat, at: nat, size: nat, alignment: nat, g: nat,
                            zero: bool, w: Bytes, v: Bytes, raw2: Raw, live2: Live)
    requires HeapOk(m, raw, live) && ptr in live && IsPot(alignment) && alignment < ADDRESS_SPACE && IsPot(g) && g >= 8
    requires Offered(at, g, size, AtLeastWord(alignment))
    requires WorstFits(live[ptr], size, AtLeastWord(alignment), Min(AtLeastWord(alignment), g))
    requires NextClear(live[ptr], Min(live[ptr].size, size), AtLeastWord(alignment), Min(AtLeastWord(alignment), g))
    requires Exchanged(m, raw, live, true, ptr, NewBlock(at, size, alignment), zero, w, v, raw2, live2)
    ensures HeapOk(v, raw2, live2)
    ensures var b, n := NewBlock(at, size, alignment), Min(live[ptr].size, size);
      n <= |Payload(m, ptr, live[ptr])| && n <= |Payload(v, DataOf(b), b)|
      && Payload(v, DataOf(b), b)[..n] == Payload(m, ptr, live[ptr])[..n]
  {
    var a, b, al, d := live[ptr], NewBlock(at, size, alignment), AtLeastWord(alignment), Min(AtLeastWord(alignment), g);
    AnswerGives(at, size, alignment, g, b);
    WorstFitsAll(a, size, al, d, b.shift);
    NextClearAll(a, Min(a.size, size), al, d, b.shift);
    ReallocKeeps(m, raw, live, ptr, b, zero, v);
  }
}
