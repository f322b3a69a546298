/** The key procedures the library itself offers for hash maps. */
module KeyProcs {
  import opened Machine
  import opened HashTable

  /** What each pointer points at: a C string, or nothing for NULL. */
  type Memory = Pointer -> Option<string>

  /** vsc_hashmap_default_compare and vsc_hashmap_default_hash */
  const DEFAULT_PROCS: Procs := Procs((k: Pointer) => k % 0x1_0000_0000_0000_0000, (a: Pointer, b: Pointer) => a == b)

  lemma DefaultLawful()
    ensures Lawful(DEFAULT_PROCS)
  {
  }

  /** A pointer is its own hash, and only equal to itself. */
  lemma DefaultExact(a: Pointer, b: Pointer)
    requires a <= 0xFFFF_FFFF_FFFF_FFFF
    ensures DEFAULT_PROCS.hash(a) == a && (DEFAULT_PROCS.compare(a, b) <==> a == b)
  {
  }

  /** vsc_hashmap_string_compare */
  predicate StringCompare(mem: Memory, a: Pointer, b: Pointer) {
    if a == b then false
    else if mem(a).None? || mem(b).None? then false
    else mem(a) == mem(b)
  }

  predicate SameString(mem: Memory, a: Pointer, b: Pointer) {
    mem(a).Some? && mem(a) == mem(b)
  }

  /** String comparison answers "same string" exactly when the two pointers differ or there is no string. */
  lemma StringCompareExact(mem: Memory, a: Pointer, b: Pointer)
    ensures (StringCompare(mem, a, b) <==> SameString(mem, a, b)) <==> (a != b || mem(a).None?)
  {
  }

  /** So with it no key equals itself, and the procedures a map needs are never lawful, whatever the hash. */
  lemma StringCompareUnlawful(mem: Memory, hash: Pointer -> SizeT)
    ensures forall a :: !StringProcs(mem, hash).compare(a, a)
    ensures !Lawful(StringProcs(mem, hash))
  {
    assert !StringProcs(mem, hash).compare(0, 0);
  }

  function StringProcs(mem: Memory, hash: Pointer -> SizeT): Procs {
    Procs(hash, (a: Pointer, b: Pointer) => StringCompare(mem, a, b))
  }
}
