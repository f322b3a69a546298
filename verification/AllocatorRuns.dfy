/** Whole runs of the system allocator: allocations, reallocations, frees and writes to payloads, in any order. */
module AllocatorRuns {
  import opened Memory
  import opened AllocatorBlock
  import opened Allocator

  datatype State = State(mem: Bytes, raw: Raw, live: Live)

  /**
   * What can happen to a heap. A new block comes in the memory the system hands over; with keep it is in exchange
   * for the one at ptr. A freed block's bytes become junk.
   */
  datatype Event =
    | Alloc(keep: bool, ptr: nat, b: Block, zero: bool, after: Bytes)
    | Free(p: nat, junk: Bytes)
    | Store(p: nat, k: nat, data: Bytes)

  predicate Allowed(s: State, e: Event) {
    match e
    case Alloc(keep, ptr, b, zero, after) =>
      Sane(b) && LowBitsZero(DataOf(b), b.power) && (keep ==> ptr in s.live && s.live[ptr].power <= b.power)
      && Granted(s.mem, after, s.raw, GivenBack(s.live, keep, ptr), b.base, Extent(b))
    case Free(p, junk) => p in s.live && |junk| <= Extent(s.live[p])
    case Store(p, k, data) => p in s.live && k + |data| <= s.live[p].size
  }

  function Next(s: State, e: Event): State
    requires Allowed(s, e)
  {
    match e
    case Alloc(keep, ptr, b, zero, after) =>
      State(Placed(after, b, Earlier(s.live, keep, ptr), zero),
            Without(s.raw, GivenBack(s.live, keep, ptr))[b.base := Extent(b)],
            Staying(s.live, keep, ptr)[DataOf(b) := b])
    case Free(p, junk) => State(Write(s.mem, s.live[p].base, junk), s.raw - {s.live[p].base}, s.live - {p})
    case Store(p, k, data) => State(Write(s.mem, p + k, data), s.raw, s.live)
  }

  /** A run each of whose events is allowed when it comes. */
  predicate Possible(s: State, run: seq<Event>)
    decreases |run|
  {
    run == [] || (Allowed(s, run[0]) && Possible(Next(s, run[0]), run[1..]))
  }

  function Final(s: State, run: seq<Event>): State
    requires Possible(s, run)
    decreases |run|
  {
    if run == [] then s else Final(Next(s, run[0]), run[1..])
  }

  /** The event writes nothing outside its block. Only a reallocation can (AllocatorBounds.ContainedExact). */
  predicate Contains(s: State, e: Event)
    requires Allowed(s, e)
  {
    e.Alloc? ==> Contained(e.b, Earlier(s.live, e.keep, e.ptr))
  }

  /** So do all events of the run. */
  predicate AllContain(s: State, run: seq<Event>)
    requires Possible(s, run)
    decreases |run|
  {
    run == [] || (Contains(s, run[0]) && AllContain(Next(s, run[0]), run[1..]))
  }

  /** The event gives back or writes the allocation at q. */
  predicate Touches(e: Event, q: nat) {
    match e
    case Alloc(keep, ptr, _, _, _) => keep && ptr == q
    case Free(p, _) => p == q
    case Store(p, _, _) => p == q
  }

  predicate Ok(s: State) {
    HeapOk(s.mem, s.raw, s.live)
  }

  /** q is an allocation of both heaps, the same, with the same payload. */
  predicate Preserved(s: State, t: State, q: nat) {
    q in s.live && q in t.live && t.live[q] == s.live[q] && Payload(t.mem, q, t.live[q]) == Payload(s.mem, q, s.live[q])
  }

  lemma AllocStep(s: State, keep: bool, ptr: nat, b: Block, zero: bool, after: Bytes)
    requires Ok(s) && Allowed(s, Alloc(keep, ptr, b, zero, after)) && Contained(b, Earlier(s.live, keep, ptr))
    ensures var t := Next(s, Alloc(keep, ptr, b, zero, after));
      Ok(t) && forall q | q in s.live && !(keep && q == ptr) :: Preserved(s, t, q)
  {
    PlacedKeeps(s.mem, s.raw, s.live, keep, ptr, b, after, zero, Earlier(s.live, keep, ptr));
    StayPreserved(s, Next(s, Alloc(keep, ptr, b, zero, after)), Staying(s.live, keep, ptr));
  }

  lemma FreeStep(s: State, p: nat, junk: Bytes)
    requires Ok(s) && Allowed(s, Free(p, junk))
    ensures Ok(Next(s, Free(p, junk)))
    ensures forall q | q in s.live && q != p :: Preserved(s, Next(s, Free(p, junk)), q)
  {
    FreeKeeps(s.mem, s.raw, s.live, p, junk);
    StayPreserved(s, Next(s, Free(p, junk)), s.live - {p});
  }

  lemma StoreStep(s: State, p: nat, k: nat, data: Bytes)
    requires Ok(s) && Allowed(s, Store(p, k, data))
    ensures Ok(Next(s, Store(p, k, data)))
    ensures forall q | q in s.live && q != p :: Preserved(s, Next(s, Store(p, k, data)), q)
  {
    StoreKeeps(s.mem, s.raw, s.live, p, k, data);
    StorePreserved(s, State(Write(s.mem, p + k, data), s.raw, s.live), p);
  }

  lemma StorePreserved(s: State, t: State, p: nat)
    requires t.live == s.live && SamePayloads(s.mem, t.mem, s.live - {p})
    ensures forall q | q in s.live && q != p :: Preserved(s, t, q)
  {
    forall q | q in s.live && q != p ensures Preserved(s, t, q) {
      assert q in s.live - {p} && (s.live - {p})[q] == s.live[q];
    }
  }

  lemma StepKeeps(s: State, e: Event)
    requires Ok(s) && Allowed(s, e) && Contains(s, e)
    ensures Ok(Next(s, e))
    ensures forall q | q in s.live && !Touches(e, q) :: Preserved(s, Next(s, e), q)
  {
    match e
    case Alloc(keep, ptr, b, zero, after) => AllocStep(s, keep, ptr, b, zero, after);
    case Free(p, junk) => FreeStep(s, p, junk);
    case Store(p, k, data) => StoreStep(s, p, k, data);
  }

  lemma StayPreserved(s: State, t: State, stay: Live)
    requires SamePayloads(s.mem, t.mem, stay)
    requires forall q | q in stay :: q in s.live && q in t.live && t.live[q] == s.live[q] == stay[q]
    ensures forall q | q in stay :: Preserved(s, t, q)
  {
  }

  /**
   * After any run whose events write nothing outside their blocks the heap is sound, and every allocation no event
   * gave back or wrote still has its place and its payload.
   */
  lemma {:induction false} RunKeeps(s: State, run: seq<Event>)
    requires Ok(s) && Possible(s, run) && AllContain(s, run)
    ensures Ok(Final(s, run))
    ensures forall q | q in s.live && (forall e | e in run :: !Touches(e, q)) :: Preserved(s, Final(s, run), q)
    decreases |run|
  {
    if run != [] {
      var t := Next(s, run[0]);
      StepKeeps(s, run[0]);
      RunKeeps(t, run[1..]);
      forall q | q in s.live && (forall e | e in run :: !Touches(e, q)) ensures Preserved(s, Final(s, run), q) {
        assert run[0] in run && Preserved(s, t, q);
        assert forall e | e in run[1..] :: e in run;
      }
    }
  }
}
