/** What automatic resizing can do when its request wraps, at inputs that pass every guard. */
module AutoResize {
  import opened Machine
  import opened HashTable
  import opened LoadFactor
  import opened HashMap

  /** A load factor between 1/65535 and 1/2, which vsc_hashmap_configure accepts. */
  const WIDE := Load(1, 65535, 1, 2)
  const MANY_BUCKETS: nat := 500000000000000
  const MANY_ENTRIES: nat := 281485375345885
  const SHRUNK: nat := 399999583087394

  /** The request wraps to more than the entries and fewer than the buckets, so that the resize is a shrink that succeeds. */
  lemma RequestShrinks()
    ensures Accepted(WIDE) && !Covers(WIDE) && MANY_ENTRIES + 1 < SHRUNK < MANY_BUCKETS < MAX_BUCKETS
    ensures Decide(WIDE, RESIZE_LOAD_FACTOR, MANY_BUCKETS, MANY_ENTRIES) == Grow(SHRUNK)
    ensures ResizeOutcome(MANY_ENTRIES, SHRUNK, true, true) == Ok
  {
    assert WrapMul(MANY_BUCKETS, 1) == MANY_BUCKETS;
    assert WrapMul(MANY_ENTRIES + 1, 65535) == SHRUNK;
  }

  /**
   * An insertion into such a table answers Ok. If any bucket from the new length on was occupied, its entry is gone
   * and size no longer counts the entries.
   */
  lemma InsertionLosesEntries(c: Keys, t: Table, b: Bucket, p: nat)
    requires Sound(c, t) && Reachable(t) && |t| == MANY_BUCKETS && Count(t) == MANY_ENTRIES
    requires SHRUNK <= p < |t| && Occupied(t[p])
    requires Occupied(b) && b.hash == c.hash(c.id(b.key)) && c.id(b.key) != c.id(t[p].key)
    ensures var d := Decide(WIDE, RESIZE_LOAD_FACTOR, |t|, Count(t));
      var u := Inserted(c, t, d, b, Ok);
      && InsertStatus(d, b.hash, c.id(b.key) !in Entries(c, t), Count(t), |t|, true, true) == Ok
      && c.id(t[p].key) in Entries(c, t) && c.id(t[p].key) !in Entries(c, u)
      && Count(u) != Count(t) + Added(c, t, d, b.key, Ok)
  {
    RequestShrinks();
    var d := Decide(WIDE, RESIZE_LOAD_FACTOR, |t|, Count(t));
    InsertedMeaning(c, t, d, b);
    EntryAt(c, t, p);
    BaseWorks(c, t, d, Ok);
    LostEntry(c, t, SHRUNK, Base(c, t, d, Ok), p);
  }

  /** An entry beyond the new length is in no bucket of the resized table. */
  lemma LostEntry(c: Keys, t: Table, nelem: nat, u: Table, p: nat)
    requires Sound(c, t) && Resized(c, t, nelem, u) && nelem <= p < |t| && Occupied(t[p])
    ensures c.id(t[p].key) !in Entries(c, u)
  {
    var k := c.id(t[p].key);
    if k in Entries(c, u) {
      var q := EntryFrom(c, u, k);
      LiveMember(u, u[q]);
      LiveMember(Prefix(t, nelem), u[q]);
    }
  }

  /** The request can also wrap to the very number of entries of a full table, which then refuses a new key. */
  lemma FullTableRefuses(hash: SizeT, reallocOk: bool, callocOk: bool)
    requires hash != INVALID_HASH
    ensures var l, n := Load(9, 65529, 1, 2), 281543712968704;
      Accepted(l) && n < MAX_BUCKETS
      && InsertStatus(Decide(l, RESIZE_LOAD_FACTOR, n, n), hash, true, n, n, reallocOk, callocOk) == ENOSPC
  {
    var l, n := Load(9, 65529, 1, 2), 281543712968704;
    assert WrapMul(n, 1) == n;
    assert Request(l, n) == n;
    assert Decide(l, RESIZE_LOAD_FACTOR, n, n) == Grow(n);
  }
}
