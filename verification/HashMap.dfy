/** The hash map object: open addressing with linear probing, back-shift deletion and growth. */
module HashMap {
  import opened Machine
  import opened HashTable
  import opened LoadFactor
  import BackShift

  /** What vsc_hashmap_resize returns. */
  function ResizeOutcome(size: nat, nelem: nat, reallocOk: bool, callocOk: bool): Status {
    if nelem == 0 || nelem < size then EINVAL
    else if nelem == size then Ok
    else if nelem >= MAX_BUCKETS then ERANGE
    else if !reallocOk || (size != 0 && !callocOk) then ENOMEM
    else Ok
  }

  lemma {:induction false} CountPrefix(t: Table, k: nat)
    requires k <= |t|
    ensures Count(t[..k]) <= Count(t)
    ensures Count(t[..k]) == Count(t) <==> forall p :: k <= p < |t| ==> !Occupied(t[p])
    ensures Count(t[..k]) == Count(t) ==> Live(t[..k]) == Live(t)
  {
    if k < |t| {
      var rest := t[..|t| - 1];
      CountPrefix(rest, k);
      assert rest[..k] == t[..k];
      assert forall p :: k <= p < |rest| ==> rest[p] == t[p];
    } else {
      assert t[..k] == t;
    }
  }

  /** add_or_replace_bucket: first match or first gap from the bucket's home, nothing if neither exists. */
  method AddOrReplaceBucket(f: Procs, ghost c: Keys, a: array<Bucket>, n: nat, b: Bucket)
      returns (at: Option<nat>, added: bool)
    requires Views(f, c) && n <= a.Length && Hashed(c, a[..n])
    requires Occupied(b) && b.hash == f.hash(b.key)
    modifies a
    ensures at.Some? ==> Lands(c, old(a[..n]), b, at.value, added) && a[..n] == old(a[..n])[at.value := b]
    ensures at.None? ==> Refuses(c, old(a[..n]), b.key) && a[..n] == old(a[..n]) && !added
    ensures a[..n] == Put(c, old(a[..n]), b)
  {
    if n == 0 {
      PutRefuses(c, a[..n], b);
      return None, false;
    }
    ghost var t := a[..n];
    ghost var home := Home(b.hash, n);
    var index: nat := Home(b.hash, n);
    for i := 0 to n
      invariant a[..n] == t && index < n
      invariant i < n ==> Steps(home, index, n) == i
      invariant Missed(c, t, home, b.key, i)
    {
      var x := a[index];
      assert x == t[index];
      if x.hash == INVALID_HASH {
        PutLands(c, t, b, index, true);
        a[index] := b;
        return Some(index), true;
      }
      if x.hash == b.hash && f.compare(b.key, x.key) {
        PutLands(c, t, b, index, false);
        a[index] := b;
        return Some(index), false;
      }
      assert !Matches(c, b.key, x);
      MissedNext(c, t, home, b.key, index);
      index := Next(index, n);
    }
    PutRefuses(c, t, b);
    return None, false;
  }

  function Empties(n: nat): (t: Table)
    ensures |t| == n
  {
    seq(n, _ => EMPTY)
  }

  /** The first i buckets of t, put one after the other into an empty table of the same length. */
  ghost function RehashOf(c: Keys, t: Table, i: nat): (u: Table)
    requires i <= |t|
    ensures |u| == |t|
  {
    if i == 0 then Empties(|t|)
    else if Occupied(t[i - 1]) then Put(c, RehashOf(c, t, i - 1), t[i - 1])
    else RehashOf(c, t, i - 1)
  }

  /** u is what rehashing the first i buckets of t gives: a well-formed table of their entries. */
  ghost predicate Rehashed(c: Keys, t: Table, i: nat, u: Table) {
    i <= |t| == |u| && Sound(c, u) && Reachable(u) && Live(u) == Live(t[..i]) && u == RehashOf(c, t, i)
  }

  /** calloc() of a bucket array and the loop that resets its buckets. */
  method EmptyBuckets(n: nat) returns (a: array<Bucket>)
    ensures fresh(a) && a.Length == n && a[..n] == Empties(n)
  {
    a := new Bucket[n](_ => EMPTY);
  }

  /** Rehash every entry of src[..n] into a new table of n buckets. */
  method Redistribute(f: Procs, ghost c: Keys, src: array<Bucket>, n: nat) returns (dst: array<Bucket>)
    requires Views(f, c) && n <= src.Length && Sound(c, src[..n])
    ensures fresh(dst) && dst.Length == n
    ensures Rehashed(c, src[..n], n, dst[..n])
  {
    dst := EmptyBuckets(n);
    ghost var t := src[..n];
    RehashedStart(c, t);
    for i := 0 to n
      invariant fresh(dst) && dst.Length == n && src[..n] == t
      invariant Rehashed(c, t, i, dst[..n])
    {
      RehashBucket(f, c, t, i, src[i], dst, n);
    }
  }

  method RehashBucket(f: Procs, ghost c: Keys, ghost t: Table, ghost i: nat, b: Bucket, dst: array<Bucket>, n: nat)
    requires Views(f, c) && n <= dst.Length && Rehashed(c, t, i, dst[..n])
    requires i < |t| && Sound(c, t) && b == t[i]
    modifies dst
    ensures Rehashed(c, t, i + 1, dst[..n])
  {
    if b.hash == INVALID_HASH {
      RehashSkip(t, i);
    } else {
      RehashPut(c, t, i, dst[..n]);
      var at, added := AddOrReplaceBucket(f, c, dst, n, b);
    }
  }

  lemma RehashedStart(c: Keys, t: Table)
    ensures Rehashed(c, t, 0, Empties(|t|))
  {
    EmptyTable(c, Empties(|t|));
    assert t[..0] == [];
  }

  /** The next entry finds a place of its own. */
  lemma RehashPut(c: Keys, t: Table, i: nat, u: Table)
    requires Rehashed(c, t, i, u) && i < |t| && Sound(c, t) && Occupied(t[i])
    ensures Rehashed(c, t, i + 1, Put(c, u, t[i]))
  {
    RehashAdds(c, t, i, u);
    var at, added := LandsSomewhere(c, u, t[i]);
    PutLands(c, u, t[i], at, added);
    RehashStep(c, t, i, u, at, added);
  }

  lemma RehashSkip(t: Table, i: nat)
    requires i < |t| && !Occupied(t[i])
    ensures Live(t[..i + 1]) == Live(t[..i])
  {
    assert t[..i + 1][..i] == t[..i];
  }

  lemma RehashStep(c: Keys, t: Table, i: nat, u: Table, at: nat, added: bool)
    requires i < |t| && Sound(c, t) && Occupied(t[i])
    requires Rehashed(c, t, i, u) && Lands(c, u, t[i], at, added)
    ensures Rehashed(c, t, i + 1, u[at := t[i]])
  {
    LandsKeepsSound(c, u, t[i], at, added);
    RehashLive(c, t, i, u, at, added);
    PutLands(c, u, t[i], at, added);
  }

  lemma RehashLive(c: Keys, t: Table, i: nat, u: Table, at: nat, added: bool)
    requires i < |t| && Sound(c, t) && Occupied(t[i])
    requires Rehashed(c, t, i, u) && Lands(c, u, t[i], at, added)
    ensures Live(u[at := t[i]]) == Live(t[..i + 1])
  {
    RehashIsNew(c, t, i, u, at, added);
    LiveOneMore(t, i, u, at);
  }

  lemma LiveOneMore(t: Table, i: nat, u: Table, at: nat)
    requires i < |t| && at < |u| && !Occupied(u[at]) && Occupied(t[i]) && Live(u) == Live(t[..i])
    ensures Live(u[at := t[i]]) == Live(t[..i + 1])
  {
    LiveStore(u, at, t[i]);
    assert t[..i + 1][..i] == t[..i];
  }

  lemma RehashIsNew(c: Keys, t: Table, i: nat, u: Table, at: nat, added: bool)
    requires i < |t| == |u| && Sound(c, t) && Occupied(t[i])
    requires Live(u) == Live(t[..i]) && Lands(c, u, t[i], at, added)
    ensures added
  {
    RehashAdds(c, t, i, u);
  }

  /** While an entry is still to be rehashed some bucket is free. */
  lemma RoomLeft(t: Table, i: nat, u: Table)
    requires i < |t| == |u| && Live(u) == Live(t[..i])
    ensures exists q :: 0 <= q < |u| && !Occupied(u[q])
  {
    LiveCount(u);
    LiveCount(t[..i]);
    CountFull(t[..i]);
    CountFull(u);
  }

  /** An entry being rehashed meets no equal key, and some bucket is still free. */
  lemma RehashAdds(c: Keys, t: Table, i: nat, u: Table)
    requires i < |t| == |u| && Sound(c, t) && Occupied(t[i])
    requires Live(u) == Live(t[..i])
    ensures !Refuses(c, u, t[i].key)
    ensures forall q :: 0 <= q < |u| ==> !Matches(c, t[i].key, u[q])
  {
    RoomLeft(t, i, u);
    forall q | 0 <= q < |u| ensures !Matches(c, t[i].key, u[q]) {
      if Occupied(u[q]) {
        LiveMember(u, u[q]);
        LiveMember(t[..i], u[q]);
        var p :| 0 <= p < i && t[..i][p] == u[q];
        assert t[p] == u[q];
      }
    }
  }

  /** t with empty buckets appended, n in all. */
  function Pad(t: Table, n: nat): (u: Table)
    requires |t| <= n
    ensures |u| == n
  {
    t + Empties(n - |t|)
  }

  /** The table after a resize that succeeds: the buckets kept, rehashed if there is an entry at all. */
  ghost function ResizedTable(c: Keys, t: Table, nelem: nat): (u: Table)
    ensures |u| == nelem
  {
    var kept := Pad(Prefix(t, nelem), nelem);
    if Count(t) == 0 then kept else RehashOf(c, kept, nelem)
  }

  /** t is u with free buckets appended. */
  ghost predicate Padded(t: Table, u: Table) {
    u <= t && forall p :: |u| <= p < |t| ==> !Occupied(t[p])
  }

  lemma {:induction false} PaddedSame(c: Keys, t: Table, u: Table)
    requires Padded(t, u)
    ensures Live(t) == Live(u) && Count(t) == Count(u)
    ensures Sound(c, u) ==> Sound(c, t)
  {
    if |t| > |u| {
      var rest := t[..|t| - 1];
      assert Padded(rest, u);
      PaddedSame(c, rest, u);
    } else {
      assert t == u;
    }
  }

  /** realloc() of the bucket array, then the loop that resets the buckets past the ones in use. */
  method Reallocate(a: array<Bucket>, used: nat, nelem: nat) returns (r: array<Bucket>)
    requires used <= a.Length
    ensures fresh(r) && r.Length == nelem
    ensures r[..nelem] == Pad(Prefix(a[..used], nelem), nelem)
  {
    r := new Bucket[nelem];
    forall i | 0 <= i < nelem && i < a.Length {
      r[i] := a[i];
    }
    var i := used;
    while i < nelem
      invariant forall p :: 0 <= p < nelem && p < used ==> r[p] == a[p]
      invariant forall p :: used <= p < i && p < nelem ==> r[p] == EMPTY
    {
      r[i] := EMPTY;
      i := i + 1;
    }
  }

  class VscHashMap {
    const procs: Procs
    ghost const keys: Keys
    var size: SizeT
    var numBuckets: SizeT
    var buckets: array<Bucket>
    var policy: Policy
    var load: Load

    /** The buckets in use; a failed resize may leave more allocated. */
    ghost function T(): Table
      reads this, buckets
      requires numBuckets <= buckets.Length
    {
      buckets[..numBuckets]
    }

    /** Everything but reachability: right hashes, no key twice, an accurate size. */
    ghost predicate Intact()
      reads this, buckets
    {
      && Views(procs, keys) && Accepted(load)
      && numBuckets <= buckets.Length && numBuckets < MAX_BUCKETS
      && Sound(keys, T()) && size == Count(T())
    }

    ghost predicate Valid()
      reads this, buckets
    {
      Intact() && Reachable(T())
    }

    /** The map this object stands for. */
    ghost function M(): Model
      reads this, buckets
      requires numBuckets <= buckets.Length
    {
      Entries(keys, T())
    }

    constructor (f: Procs)
      requires Lawful(f)
      ensures Valid() && procs == f && M() == map[] && size == 0 && numBuckets == 0
      ensures policy == RESIZE_LOAD_FACTOR && load == DEFAULT_LOAD && fresh(buckets)
    {
      LawfulHasView(f);
      ghost var c :| Views(f, c);
      procs, keys := f, c;
      size, numBuckets := 0, 0;
      buckets := new Bucket[0];
      policy, load := RESIZE_LOAD_FACTOR, DEFAULT_LOAD;
    }

    /** size is the number of keys in the map. */
    lemma SizeIsCardinality()
      requires Intact()
      ensures size == |M()|
    {
      EntriesSize(keys, T());
    }

    /** vsc_hashmap_clear */
    method Clear()
      requires Intact()
      modifies this`size, buckets
      ensures Valid() && M() == map[] && T() == Empties(numBuckets)
    {
      size := 0;
      for i := 0 to numBuckets
        invariant size == 0 && forall p :: 0 <= p < i ==> buckets[p] == EMPTY
      {
        buckets[i] := EMPTY;
      }
      EmptyTable(keys, T());
    }

    /** vsc_hashmap_configure: the fractions it takes are the accepted ones, and only those. */
    method Configure(minNum: uint16, minDen: uint16, maxNum: uint16, maxDen: uint16) returns (r: Status)
      requires Intact()
      modifies this`load
      ensures Intact()
      ensures r == if Accepted(Load(minNum, minDen, maxNum, maxDen)) then Ok else EINVAL
      ensures r == Ok <==> 0 < minNum < minDen && 0 < maxNum < maxDen && minNum * maxDen <= maxNum * minDen
      ensures load == if r == Ok then Load(minNum, minDen, maxNum, maxDen) else old(load)
    {
      if minNum == 0 || minDen == 0 || minNum >= minDen { return EINVAL; }
      if maxNum == 0 || maxDen == 0 || maxNum >= maxDen { return EINVAL; }
      var numa := minNum * maxDen;
      var numb := maxNum * minDen;
      if numa > numb { return EINVAL; }
      load := Load(minNum, minDen, maxNum, maxDen);
      return Ok;
    }

    /** find_bucket: the index of the bucket with an equal key. */
    method FindBucket(key: Pointer) returns (at: Option<nat>)
      requires Intact()
      ensures if at.Some? then Finds(keys, T(), key, at.value) else !Found(keys, T(), key)
      ensures Valid() ==> (at.Some? <==> keys.id(key) in M())
    {
      var hash := procs.hash(key);
      ghost var t := T();
      FindBucketMeaning(keys, t, key);
      if numBuckets == 0 { return None; }
      var n: nat := numBuckets;
      ghost var home := Home(hash, n);
      var index: nat := Home(hash, n);
      for i := 0 to n
        invariant index < n && Missed(keys, t, home, key, i)
        invariant i < n ==> Steps(home, index, n) == i
      {
        var x := buckets[index];
        assert x == t[index];
        if x.hash == INVALID_HASH {
          GapNotFound(keys, t, key, home, index);
          return None;
        }
        if x.hash == hash && procs.compare(key, x.key) {
          assert Finds(keys, t, key, index);
          return Some(index);
        }
        assert !Matches(keys, key, x);
        MissedNext(keys, t, home, key, index);
        index := Next(index, n);
      }
      RoundNotFound(keys, t, key, home);
      return None;
    }

    /** vsc_hashmap_find: the value stored for an equal key, NULL if the scan finds none. */
    method Find(key: Pointer) returns (v: Pointer)
      requires Intact()
      ensures v == if Found(keys, T(), key) && keys.id(key) in M() then M()[keys.id(key)].value else NULL
      ensures Valid() ==> v == if keys.id(key) in M() then M()[keys.id(key)].value else NULL
    {
      var at := FindBucket(key);
      if at.None? { return NULL; }
      FoundMapped(keys, T(), key, at.value);
      return buckets[at.value].value;
    }

    /** vsc_hashmap_update: overwrite the value of an existing key; 1 when there is none. */
    method Update(key: Pointer, value: Pointer) returns (r: int)
      requires Valid()
      modifies buckets
      ensures Valid()
      ensures r == if keys.id(key) in old(M()) then 0 else 1
      ensures M() == if r == 0 then old(M())[keys.id(key) := Entry(old(M())[keys.id(key)].key, value)] else old(M())
      ensures T() == Revalue(keys, old(T()), key, value)
    {
      var at := FindBucket(key);
      IndexMapped(keys, T(), key);
      if at.None? { return 1; }
      ghost var t, i := T(), at.value;
      var b := buckets[at.value].(value := value);
      EntryAt(keys, t, i);
      IndexIs(keys, t, key, i);
      buckets[at.value] := b;
      UpdateKeeps(keys, t, i, b);
      assert T() == t[i := b];
      return 0;
    }

    /** vsc_hashmap_find_by_hash: the value of some entry with that hash, NULL if there is none. */
    method FindByHash(hash: SizeT) returns (v: Pointer)
      requires Valid()
      ensures (exists k :: k in M() && keys.hash(k) == hash && hash != INVALID_HASH && M()[k].value == v)
        || (v == NULL && (hash == INVALID_HASH || forall k :: k in M() ==> keys.hash(k) != hash))
    {
      if hash == INVALID_HASH || numBuckets == 0 { return NULL; }
      var n: nat := numBuckets;
      ghost var t := T();
      ghost var home := Home(hash, n);
      var index: nat := Home(hash, n);
      for i := 0 to n
        invariant index < n && Unhashed(t, home, hash, i)
        invariant i < n ==> Steps(home, index, n) == i
      {
        var x := buckets[index];
        assert x == t[index];
        if x.hash == INVALID_HASH {
          HashAbsent(keys, t, hash, index, i);
          return NULL;
        }
        if x.hash == hash {
          EntryAt(keys, t, index);
          return x.value;
        }
        index := Next(index, n);
      }
      HashAbsent(keys, t, hash, 0, n);
      return NULL;
    }

    /**
     * vsc_hashmap_resize. The two flags say whether the allocator grants the new bucket array and the temporary one.
     * A shrink that drops an occupied bucket loses that entry, and a shrink whose temporary array is refused leaves
     * numBuckets above the allocated length.
     */
    method Resize(nelem: SizeT, reallocOk: bool, callocOk: bool) returns (r: Status)
      requires Intact()
      modifies this`buckets, this`numBuckets
      ensures r == ResizeOutcome(size, nelem, reallocOk, callocOk)
      ensures r == EINVAL <==> nelem == 0 || nelem < old(size)
      ensures r == ERANGE <==> nelem > old(size) && nelem >= SIZE_MAX / 24
      ensures r == Ok && nelem != size ==>
        fresh(buckets) && buckets.Length == numBuckets == nelem < MAX_BUCKETS && Resized(keys, old(T()), nelem, T())
      ensures r == Ok && nelem != size ==>
        if Dropped(old(T()), nelem) then !Intact() else Valid() && M() == old(M())
      ensures r == Ok && nelem != size ==> T() == ResizedTable(keys, old(T()), nelem)
      ensures !(r == Ok && nelem != size) && !(r == ENOMEM && nelem < old(numBuckets) && reallocOk) ==>
        numBuckets == old(numBuckets) <= buckets.Length && T() == old(T())
      ensures r == ENOMEM && nelem < old(numBuckets) && reallocOk ==>
        numBuckets == old(numBuckets) > buckets.Length == nelem
      ensures buckets == old(buckets) || fresh(buckets)
    {
      if nelem == 0 || nelem < size { return EINVAL; }
      if nelem == size { return Ok; }
      if nelem >= SIZE_MAX / BUCKET_BYTES { return ERANGE; }
      if !reallocOk { return ENOMEM; }
      ghost var t := T();
      buckets := Reallocate(buckets, numBuckets, nelem);
      assert Padded(buckets[..nelem], Prefix(t, nelem));
      assert size == Count(t);
      if size == 0 {
        PadEmpty(keys, t, nelem, buckets[..nelem]);
        numBuckets := nelem;
        return Ok;
      }
      if !callocOk {
        assert numBuckets <= nelem ==> buckets[..numBuckets] == t;
        return ENOMEM;
      }
      Rehash(nelem, t);
      ResizedMeaning(keys, t, nelem, T());
      return Ok;
    }

    /** The rest of vsc_hashmap_resize once both arrays are there: rehash into the temporary one and copy it back. */
    method Rehash(nelem: SizeT, ghost t: Table)
      requires Views(procs, keys) && buckets.Length == nelem && Sound(keys, t)
      requires buckets[..nelem] == Pad(Prefix(t, nelem), nelem)
      modifies this`numBuckets, buckets
      ensures numBuckets == nelem && Resized(keys, t, nelem, T())
      ensures T() == RehashOf(keys, Pad(Prefix(t, nelem), nelem), nelem)
    {
      ghost var padded := buckets[..nelem];
      assert Padded(padded, Prefix(t, nelem));
      PrefixSound(keys, t, nelem);
      PaddedSame(keys, padded, Prefix(t, nelem));
      numBuckets := nelem;
      var tmp := Redistribute(procs, keys, buckets, nelem);
      RehashedResized(keys, t, nelem, padded, tmp[..nelem]);
      CopyBack(buckets, tmp, nelem);
    }

    /** maybe_resize, its arithmetic done: resize if so decided. */
    method Act(d: Decision, reallocOk: bool, callocOk: bool) returns (r: Status)
      requires Valid() && (d.Refuse? ==> d.status == ERANGE || d.status == EPERM)
      modifies this`buckets, this`numBuckets
      ensures r == ResizeStatus(d, size, reallocOk, callocOk)
      ensures CutShort(d, old(numBuckets), r, reallocOk) ==> numBuckets == old(numBuckets) > buckets.Length == d.nelem
      ensures !CutShort(d, old(numBuckets), r, reallocOk) ==>
        numBuckets <= buckets.Length && T() == Base(keys, old(T()), d, r)
      ensures buckets == old(buckets) || fresh(buckets)
    {
      match d
      case Refuse(status) => return status;
      case Enough => return Ok;
      case Grow(nelem) => r := Resize(nelem, reallocOk, callocOk);
    }

    /**
     * vsc_hashmap_insert. A resize refused by policy is not an error; the table is then used as it is, and only a
     * full one without the key turns the insertion down. What it does is stated for every request, and once more for
     * the requests that do not wrap.
     */
    method Insert(key: Pointer, value: Pointer, reallocOk: bool, callocOk: bool) returns (r: Status)
      requires Valid()
      modifies this`size, this`buckets, this`numBuckets, buckets
      ensures r == InsertStatus(Decide(load, policy, old(numBuckets), old(size)), procs.hash(key),
                                keys.id(key) !in old(M()), old(size), old(numBuckets), reallocOk, callocOk)
      ensures var d := Decide(load, policy, old(numBuckets), old(size));
        CutShort(d, old(numBuckets), r, reallocOk) ==>
          numBuckets == old(numBuckets) > buckets.Length == d.nelem && size == old(size)
      ensures var d := Decide(load, policy, old(numBuckets), old(size));
        !CutShort(d, old(numBuckets), r, reallocOk) ==>
          numBuckets <= buckets.Length
          && T() == Inserted(keys, old(T()), d, Bucket(procs.hash(key), key, value), r)
          && size == old(size) + Added(keys, old(T()), d, key, r)
      ensures old(Roomy()) || procs.hash(key) == INVALID_HASH ==> Valid()
      ensures old(Roomy()) || procs.hash(key) == INVALID_HASH ==>
        M() == if r == Ok then old(M())[keys.id(key) := Entry(key, value)] else old(M())
      ensures numBuckets != old(numBuckets) || r == ENOMEM ==>
        old(size) * load.maxDen >= old(numBuckets) * load.maxNum && policy == RESIZE_LOAD_FACTOR
      ensures buckets == old(buckets) || fresh(buckets)
    {
      var hash := procs.hash(key);
      if hash == INVALID_HASH { return ERANGE; }
      CountFull(T());
      DecideSound(load, policy, numBuckets, size);
      DecideExact(load, policy, numBuckets, size);
      ghost var t := T();
      r := InsertMapped(Decide(load, policy, numBuckets, size), Bucket(hash, key, value), reallocOk, callocOk);
      InsertedLength(keys, t, Decide(load, policy, |t|, old(size)), Bucket(hash, key, value), r);
    }

    /** The insertion once decided, with what it does to the map if a request grows. */
    method InsertMapped(d: Decision, b: Bucket, reallocOk: bool, callocOk: bool) returns (r: Status)
      requires Valid() && Occupied(b) && b.hash == procs.hash(b.key)
      requires d.Refuse? ==> d.status == ERANGE || d.status == EPERM
      requires d.Enough? ==> size < numBuckets
      modifies this`size, this`buckets, this`numBuckets, buckets
      ensures r == InsertStatus(d, b.hash, keys.id(b.key) !in old(M()), old(size), old(numBuckets), reallocOk, callocOk)
      ensures CutShort(d, old(numBuckets), r, reallocOk) ==>
        numBuckets == old(numBuckets) > buckets.Length == d.nelem && size == old(size)
      ensures !CutShort(d, old(numBuckets), r, reallocOk) ==>
        numBuckets <= buckets.Length && T() == Inserted(keys, old(T()), d, b, r)
        && size == old(size) + Added(keys, old(T()), d, b.key, r)
      ensures (d.Grow? ==> d.nelem > old(numBuckets)) ==>
        Valid() && M() == if r == Ok then old(M())[keys.id(b.key) := Entry(b.key, b.value)] else old(M())
      ensures buckets == old(buckets) || fresh(buckets)
    {
      ghost var t, n := T(), numBuckets;
      CountFull(t);
      r := InsertDecided(d, b, reallocOk, callocOk);
      if d.Grow? ==> d.nelem > n {
        GrowingInsertMeaning(keys, t, d, b, r);
      }
    }

    method InsertDecided(d: Decision, b: Bucket, reallocOk: bool, callocOk: bool) returns (r: Status)
      requires Valid() && Occupied(b) && b.hash == procs.hash(b.key)
      requires d.Refuse? ==> d.status == ERANGE || d.status == EPERM
      requires d.Enough? ==> size < numBuckets
      modifies this`size, this`buckets, this`numBuckets, buckets
      ensures r == InsertStatus(d, b.hash, keys.id(b.key) !in old(M()), old(size), old(numBuckets), reallocOk, callocOk)
      ensures CutShort(d, old(numBuckets), r, reallocOk) ==>
        numBuckets == old(numBuckets) > buckets.Length == d.nelem && size == old(size)
      ensures !CutShort(d, old(numBuckets), r, reallocOk) ==>
        numBuckets <= buckets.Length && T() == Inserted(keys, old(T()), d, b, r)
        && size == old(size) + Added(keys, old(T()), d, b.key, r)
      ensures buckets == old(buckets) || fresh(buckets)
    {
      ghost var t := T();
      CountFull(t);
      r := Act(d, reallocOk, callocOk);
      if r != Ok && r != EPERM { return; }
      r := Finish(b, t, d, reallocOk, callocOk, r);
    }

    /** The store, in what the resize left of the table t. */
    method Finish(b: Bucket, ghost t: Table, ghost d: Decision, ghost reallocOk: bool, ghost callocOk: bool, ghost rs: Status)
        returns (r: Status)
      requires Views(procs, keys) && Occupied(b) && b.hash == procs.hash(b.key)
      requires Sound(keys, t) && Reachable(t) && size == Count(t) < SIZE_MAX
      requires rs == ResizeStatus(d, size, reallocOk, callocOk) && (rs == Ok || rs == EPERM)
      requires numBuckets <= buckets.Length && T() == Base(keys, t, d, rs)
      modifies this`size, buckets
      ensures r == InsertStatus(d, b.hash, keys.id(b.key) !in Entries(keys, t), old(size), |t|, reallocOk, callocOk)
      ensures T() == Inserted(keys, t, d, b, r)
      ensures size == old(size) + Added(keys, t, d, b.key, r)
    {
      BaseWorks(keys, t, d, rs);
      ghost var s := size;
      r := Store(b);
      StoredMeaning(keys, t, d, b, s, |t|, reallocOk, callocOk, rs, r);
    }

    /** The end of vsc_hashmap_insert: store into the buckets as they are. */
    method Store(b: Bucket) returns (r: Status)
      requires Views(procs, keys) && numBuckets <= buckets.Length && Sound(keys, T()) && Reachable(T())
      requires Occupied(b) && b.hash == procs.hash(b.key) && size < SIZE_MAX
      modifies this`size, buckets
      ensures T() == Put(keys, old(T()), b)
      ensures r == if Count(old(T())) == numBuckets && keys.id(b.key) !in Entries(keys, old(T())) then ENOSPC else Ok
      ensures size == old(size) + (if r == Ok && keys.id(b.key) !in Entries(keys, old(T())) then 1 else 0)
    {
      ghost var t := T();
      var at, added := AddOrReplaceBucket(procs, keys, buckets, numBuckets, b);
      PlaceAnswer(keys, t, b, at, added);
      if at.Some? && added {
        size := size + 1;
      }
      r := if at.None? then ENOSPC else Ok;
    }

    /**
     * vsc_hashmap_remove. The map always loses exactly the key; lookups keep working when no run of occupied buckets
     * goes over the end of the array at the removed one.
     */
    method Remove(key: Pointer) returns (val: Pointer, ghost at: nat)
      requires Valid()
      modifies this`size, buckets
      ensures Intact() && M() == old(M()) - {keys.id(key)}
      ensures val == if keys.id(key) in old(M()) then old(M())[keys.id(key)].value else NULL
      ensures keys.id(key) !in old(M()) ==> T() == old(T()) && size == old(size)
      ensures keys.id(key) in old(M()) ==>
        at < numBuckets && Matches(keys, key, old(T())[at]) && T() == BackShift.RemoveAt(old(T()), at)
        && size == old(size) - 1 && Live(T()) == Live(old(T())) - multiset{old(T())[at]}
        && (!BackShift.Crosses(old(T()), at) ==> Valid())
    {
      var found := FindBucket(key);
      at := 0;
      if found.None? { return NULL, at; }
      at := found.value;
      ghost var t := T();
      EntryAt(keys, t, at);
      val := buckets[found.value].value;
      FillGap(found.value);
      RemoveMeaning(keys, t, at);
      size := size - 1;
    }

    /** The back-shift loop of vsc_hashmap_remove, on the bucket just emptied. */
    method FillGap(at: nat)
      requires at < numBuckets <= buckets.Length
      modifies buckets
      ensures buckets[..numBuckets] == BackShift.RemoveAt(old(buckets[..numBuckets]), at)
    {
      var n: nat := numBuckets;
      ghost var goal := BackShift.RemoveAt(buckets[..n], at);
      buckets[at] := EMPTY;
      var index := at;
      var cidx: nat := Next(at, n);
      assert buckets[..n] == old(buckets[..n])[at := EMPTY];
      for i := 0 to n
        invariant index < n && cidx < n && buckets[index].hash == INVALID_HASH
        invariant goal == BackShift.Refill(BackShift.Scan(buckets[..n], index, cidx), n - i)
      {
        ghost var s := BackShift.Scan(buckets[..n], index, cidx);
        var b := buckets[cidx];
        assert b == s.t[cidx];
        if b.hash == INVALID_HASH { break; }
        if Home(b.hash, n) <= index {
          buckets[index] := b;
          buckets[cidx] := EMPTY;
          index := cidx;
        }
        cidx := Next(cidx, n);
        assert BackShift.Scan(buckets[..n], index, cidx) == s.Advance();
      }
    }

    /**
     * vsc_hashmap_enumerate. The callback's answer may depend on the buckets it was shown before; the first
     * answer other than 0 ends the enumeration.
     */
    method Enumerate(proc: (seq<Bucket>, Bucket) -> int) returns (r: int, shown: seq<Bucket>)
      requires Intact()
      ensures shown <= InOrder(T())
      ensures if r == 0 then shown == InOrder(T()) && Agreed(proc, shown)
        else shown != [] && Agreed(proc, shown[..|shown| - 1]) && r == proc(shown[..|shown| - 1], shown[|shown| - 1])
    {
      ghost var t := T();
      shown := [];
      for i := 0 to numBuckets
        invariant shown == InOrder(t[..i])
        invariant Agreed(proc, shown)
      {
        var b := buckets[i];
        assert b == t[i] && t[..i + 1][..i] == t[..i];
        InOrderPrefix(t, i + 1);
        if b.hash != INVALID_HASH {
          r := proc(shown, b);
          ghost var before := shown;
          shown := shown + [b];
          assert shown[..|shown| - 1] == before;
          if r != 0 { return; }
        }
      }
      assert t[..numBuckets] == t;
      r := 0;
    }

    /** vsc_hashmap_set_resize_policy */
    method SetPolicy(p: Policy) returns (r: Policy)
      modifies this`policy
      ensures r == old(policy) && policy == p
    {
      r := policy;
      policy := p;
    }

    /** The resize request for one more entry does not wrap, or is not made. */
    ghost predicate Roomy()
      reads this
      requires Accepted(load)
    {
      Decide(load, policy, numBuckets, size).Grow? ==> Fits(load, size)
    }
  }

  /** The callback answered 0 for every one of these buckets. */
  ghost predicate Agreed(proc: (seq<Bucket>, Bucket) -> int, shown: seq<Bucket>) {
    shown == [] || (Agreed(proc, shown[..|shown| - 1]) && proc(shown[..|shown| - 1], shown[|shown| - 1]) == 0)
  }

  /** The occupied buckets from first to last. */
  function InOrder(t: Table): seq<Bucket> {
    if t == [] then [] else InOrder(t[..|t| - 1]) + if Occupied(t[|t| - 1]) then [t[|t| - 1]] else []
  }

  /** Enumeration shows every entry once. */
  lemma {:induction false} InOrderShowsAll(t: Table)
    ensures multiset(InOrder(t)) == Live(t) && |InOrder(t)| == Count(t)
  {
    if t != [] { InOrderShowsAll(t[..|t| - 1]); }
  }

  lemma {:induction false} InOrderPrefix(t: Table, k: nat)
    requires k <= |t|
    ensures InOrder(t[..k]) <= InOrder(t)
  {
    if k < |t| {
      InOrderPrefix(t[..|t| - 1], k);
      assert t[..|t| - 1][..k] == t[..k];
    } else {
      assert t[..k] == t;
    }
  }

  lemma RemoveMeaning(c: Keys, t: Table, p: nat)
    requires Sound(c, t) && Reachable(t) && p < |t| && Occupied(t[p])
    ensures var u := BackShift.RemoveAt(t, p);
      && Sound(c, u) && Count(u) == Count(t) - 1 && Live(u) == Live(t) - multiset{t[p]}
      && Entries(c, u) == Entries(c, t) - {c.id(t[p].key)}
      && (!BackShift.Crosses(t, p) ==> Reachable(u))
  {
    BackShift.RemoveKeepsOthers(c, t, p);
    if !BackShift.Crosses(t, p) {
      BackShift.RemoveRestores(t, p);
    }
  }

  /** What storing a bucket by add_or_replace_bucket means for the map. */
  lemma PlaceMeaning(c: Keys, t: Table, b: Bucket, at: Option<nat>, added: bool)
    requires Sound(c, t) && Reachable(t) && Occupied(b) && b.hash == c.hash(c.id(b.key))
    requires if at.Some? then Lands(c, t, b, at.value, added) else Refuses(c, t, b.key)
    ensures at.None? <==> Count(t) == |t| && c.id(b.key) !in Entries(c, t)
    ensures at.Some? ==>
      var u := t[at.value := b];
      && Sound(c, u) && Reachable(u) && Count(u) == Count(t) + (if added then 1 else 0)
      && Entries(c, u) == Entries(c, t)[c.id(b.key) := Entry(b.key, b.value)]
  {
    CountFull(t);
    if at.Some? {
      LandsKeepsSound(c, t, b, at.value, added);
      LandsEntries(c, t, b, at.value, added);
      if added { CountAdd(t, at.value, b); } else { CountStore(t, at.value, b); }
    } else if c.id(b.key) in Entries(c, t) {
      var p := EntryFrom(c, t, c.id(b.key));
    }
  }

  lemma PlaceAnswer(c: Keys, t: Table, b: Bucket, at: Option<nat>, added: bool)
    requires Sound(c, t) && Reachable(t) && Occupied(b) && b.hash == c.hash(c.id(b.key))
    requires if at.Some? then Lands(c, t, b, at.value, added) else Refuses(c, t, b.key)
    ensures at.None? <==> Count(t) == |t| && c.id(b.key) !in Entries(c, t)
    ensures at.Some? ==> (added <==> c.id(b.key) !in Entries(c, t))
  {
    PlaceMeaning(c, t, b, at, added);
    if at.Some? {
      LandsEntries(c, t, b, at.value, added);
    }
  }

  /** What vsc_hashmap_insert returns. A full table as it is takes only a key it has. */
  function InsertStatus(d: Decision, hash: SizeT, absent: bool, size: nat, numBuckets: nat, reallocOk: bool, callocOk: bool): Status {
    if hash == INVALID_HASH then ERANGE
    else
      var r := ResizeStatus(d, size, reallocOk, callocOk);
      if r != Ok && r != EPERM then r
      else if size == numBuckets && absent && (d.Grow? ==> d.nelem == size) then ENOSPC
      else Ok
  }

  /**
   * With the load-factor policy an insertion runs out of buckets exactly when the table is full, the key new, and
   * the request has wrapped to the very number of entries, so that the resize has nothing to do.
   */
  lemma LoadFactorFullExact(l: Load, numBuckets: nat, size: nat, hash: SizeT, absent: bool, reallocOk: bool, callocOk: bool)
    requires Accepted(l) && size <= numBuckets < MAX_BUCKETS
    ensures InsertStatus(Decide(l, RESIZE_LOAD_FACTOR, numBuckets, size), hash, absent, size, numBuckets, reallocOk, callocOk) == ENOSPC
      <==> hash != INVALID_HASH && absent && size == numBuckets && Decide(l, RESIZE_LOAD_FACTOR, numBuckets, size) == Grow(size)
  {
    DecideSound(l, RESIZE_LOAD_FACTOR, numBuckets, size);
  }

  /** So never when the request does not wrap. */
  lemma LoadFactorNeverFull(l: Load, numBuckets: nat, size: nat, hash: SizeT, absent: bool, reallocOk: bool, callocOk: bool)
    requires Accepted(l) && size <= numBuckets < MAX_BUCKETS && Fits(l, size)
    ensures InsertStatus(Decide(l, RESIZE_LOAD_FACTOR, numBuckets, size), hash, absent, size, numBuckets, reallocOk, callocOk) != ENOSPC
  {
    DecideSound(l, RESIZE_LOAD_FACTOR, numBuckets, size);
    LoadFactorFullExact(l, numBuckets, size, hash, absent, reallocOk, callocOk);
  }

  /** What vsc_hashmap_resize answers, each by its exact condition. */
  lemma ResizeOutcomeExact(size: nat, nelem: nat, reallocOk: bool, callocOk: bool)
    ensures var r := ResizeOutcome(size, nelem, reallocOk, callocOk);
      && (r == EINVAL <==> nelem == 0 || nelem < size)
      && (r == ERANGE <==> nelem > size && nelem >= 768614336404564650)
      && (r == ENOMEM <==> nelem > size && nelem < 768614336404564650 && (!reallocOk || (size > 0 && !callocOk)))
      && (r == Ok || r == EINVAL || r == ERANGE || r == ENOMEM)
  {
  }

  /** What vsc_hashmap_insert answers when its request does not wrap, each by its exact condition in plain numbers. */
  lemma InsertStatusExact(l: Load, policy: Policy, n: nat, size: nat, hash: SizeT, absent: bool, reallocOk: bool, callocOk: bool)
    requires Accepted(l) && size <= n < MAX_BUCKETS && (size + 1) * l.minDen <= SIZE_MAX
    ensures var r := InsertStatus(Decide(l, policy, n, size), hash, absent, size, n, reallocOk, callocOk);
      var due := n * l.maxNum < SIZE_MAX && size * l.maxDen >= n * l.maxNum;
      var grows := due && policy == RESIZE_LOAD_FACTOR && (size + 1) * l.maxDen < SIZE_MAX;
      var tooMany := 768614336404564649 * l.minNum < (size + 1) * l.minDen;
      && (r == ERANGE <==>
        hash == 0xFFFF_FFFF_FFFF_FFFF || n * l.maxNum >= SIZE_MAX || (due && policy == RESIZE_LOAD_FACTOR && (grows ==> tooMany)))
      && (r == ENOMEM <==> hash != 0xFFFF_FFFF_FFFF_FFFF && grows && !tooMany && (!reallocOk || (size > 0 && !callocOk)))
      && (r == ENOSPC <==> hash != 0xFFFF_FFFF_FFFF_FFFF && due && policy == RESIZE_NONE && absent && size == n)
      && (r == Ok || r == ERANGE || r == ENOMEM || r == ENOSPC)
  {
    DecideExact(l, policy, n, size);
    DecideSound(l, policy, n, size);
    RequestLeast(l, size, 768614336404564649);
    ResizeOutcomeExact(size, Request(l, size), reallocOk, callocOk);
  }

  /** A resize below the bucket count whose second allocation fails has cut the array, and nothing else. */
  predicate CutShort(d: Decision, numBuckets: nat, r: Status, reallocOk: bool) {
    d.Grow? && d.nelem < numBuckets && r == ENOMEM && reallocOk
  }

  /** The table an insertion stores into, r being what the resize or the insertion returned. */
  ghost function Base(c: Keys, t: Table, d: Decision, r: Status): Table {
    if d.Grow? && r == Ok && d.nelem != Count(t) then ResizedTable(c, t, d.nelem) else t
  }

  /** The table after an insertion that returned r. */
  ghost function Inserted(c: Keys, t: Table, d: Decision, b: Bucket, r: Status): Table {
    if r == Ok then Put(c, Base(c, t, d, r), b) else t
  }

  lemma InsertedLength(c: Keys, t: Table, d: Decision, b: Bucket, r: Status)
    ensures !d.Grow? ==> |Inserted(c, t, d, b, r)| == |t|
  {
  }

  /** By how much size grows: an entry lost to the resize counts as new, but nothing counts the ones lost. */
  ghost function Added(c: Keys, t: Table, d: Decision, key: Pointer, r: Status): nat {
    if r == Ok && c.id(key) !in Entries(c, Base(c, t, d, r)) then 1 else 0
  }

  lemma ResizedTableWorks(c: Keys, t: Table, nelem: nat)
    requires Sound(c, t) && Count(t) < nelem
    ensures Resized(c, t, nelem, ResizedTable(c, t, nelem))
    ensures Count(ResizedTable(c, t, nelem)) <= Count(t)
  {
    var kept := Pad(Prefix(t, nelem), nelem);
    assert Padded(kept, Prefix(t, nelem));
    PrefixSound(c, t, nelem);
    PaddedSame(c, kept, Prefix(t, nelem));
    if Count(t) == 0 {
      PadEmpty(c, t, nelem, kept);
    } else {
      RehashOfWorks(c, kept, nelem, RehashOf(c, kept, nelem));
      RehashedResized(c, t, nelem, kept, RehashOf(c, kept, nelem));
      ResizedCount(c, t, nelem, RehashOf(c, kept, nelem));
    }
  }

  lemma ResizedCount(c: Keys, t: Table, nelem: nat, u: Table)
    requires Resized(c, t, nelem, u)
    ensures Count(u) <= Count(t)
  {
    LiveCount(u);
    LiveCount(Prefix(t, nelem));
    if |t| > nelem {
      CountPrefix(t, nelem);
    }
  }

  lemma RehashOfNext(c: Keys, t: Table, i: nat, u: Table)
    requires i < |t| && u == RehashOf(c, t, i)
    ensures RehashOf(c, t, i + 1) == if Occupied(t[i]) then Put(c, u, t[i]) else u
  {
  }

  lemma RehashedNext(c: Keys, t: Table, i: nat, u: Table)
    requires Rehashed(c, t, i, u) && i < |t| && Sound(c, t)
    ensures Rehashed(c, t, i + 1, if Occupied(t[i]) then Put(c, u, t[i]) else u)
  {
    if Occupied(t[i]) {
      RehashPut(c, t, i, u);
    } else {
      RehashSkip(t, i);
    }
  }

  /** Rehashing never runs out of room and keeps every entry. */
  lemma {:induction false} RehashOfWorks(c: Keys, t: Table, i: nat, u: Table)
    requires Sound(c, t) && i <= |t| && u == RehashOf(c, t, i)
    ensures Rehashed(c, t, i, u)
    decreases i
  {
    if i == 0 {
      RehashedStart(c, t);
    } else {
      var front := RehashOf(c, t, i - 1);
      RehashOfWorks(c, t, i - 1, front);
      RehashedNext(c, t, i - 1, front);
      RehashOfNext(c, t, i - 1, front);
    }
  }

  /** A key is refused or has a place. */
  lemma LandsSomewhere(c: Keys, t: Table, b: Bucket) returns (i: nat, added: bool)
    requires !Refuses(c, t, b.key)
    ensures Lands(c, t, b, i, added)
  {
    var home := Home(b.hash, |t|);
    var k: nat := 0;
    i := home;
    while Occupied(t[i]) && !Matches(c, b.key, t[i])
      invariant i < |t| && k == Steps(home, i, |t|) && Missed(c, t, home, b.key, k)
      decreases |t| - k
    {
      MissedNext(c, t, home, b.key, i);
      if k + 1 == |t| {
        assert Refuses(c, t, b.key);
      }
      i := Next(i, |t|);
      k := k + 1;
    }
    added := !Occupied(t[i]);
  }

  /** An insertion always stores into a well-formed table, even after a resize that lost entries. */
  lemma BaseWorks(c: Keys, t: Table, d: Decision, r: Status)
    requires Sound(c, t) && Reachable(t) && (d.Grow? && r == Ok ==> d.nelem >= Count(t))
    ensures Sound(c, Base(c, t, d, r)) && Reachable(Base(c, t, d, r))
    ensures d.Grow? && r == Ok && d.nelem != Count(t) ==>
      Resized(c, t, d.nelem, Base(c, t, d, r)) && Count(Base(c, t, d, r)) < |Base(c, t, d, r)|
  {
    if d.Grow? && r == Ok && d.nelem != Count(t) {
      ResizedTableWorks(c, t, d.nelem);
    }
  }

  lemma BaseStores(c: Keys, t: Table, d: Decision, b: Bucket, rs: Status, r: Status)
    requires Sound(c, t) && Reachable(t) && (rs == Ok || rs == EPERM) && (d.Grow? ==> rs == Ok && d.nelem >= Count(t))
    requires r == if Count(Base(c, t, d, rs)) == |Base(c, t, d, rs)| && c.id(b.key) !in Entries(c, Base(c, t, d, rs)) then ENOSPC else Ok
    ensures r == Ok ==> Base(c, t, d, r) == Base(c, t, d, rs)
    ensures r == ENOSPC <==> Count(t) == |t| && c.id(b.key) !in Entries(c, t) && (d.Grow? ==> d.nelem == Count(t))
    ensures r == ENOSPC ==> Put(c, Base(c, t, d, rs), b) == t
  {
    BaseWorks(c, t, d, rs);
    if r == ENOSPC {
      CountFull(t);
      PutFull(c, t, b);
    }
  }

  /** Storing into what the resize left is the insertion. */
  lemma StoredMeaning(c: Keys, t: Table, d: Decision, b: Bucket, size: nat, n: nat, reallocOk: bool, callocOk: bool, rs: Status, r: Status)
    requires Sound(c, t) && Reachable(t) && size == Count(t) && n == |t| && b.hash != INVALID_HASH
    requires rs == ResizeStatus(d, size, reallocOk, callocOk) && (rs == Ok || rs == EPERM)
    requires r == if Count(Base(c, t, d, rs)) == |Base(c, t, d, rs)| && c.id(b.key) !in Entries(c, Base(c, t, d, rs)) then ENOSPC else Ok
    ensures r == InsertStatus(d, b.hash, c.id(b.key) !in Entries(c, t), size, n, reallocOk, callocOk)
    ensures Put(c, Base(c, t, d, rs), b) == Inserted(c, t, d, b, r)
    ensures (if r == Ok && c.id(b.key) !in Entries(c, Base(c, t, d, rs)) then 1 else 0) == Added(c, t, d, b.key, r)
  {
    BaseStores(c, t, d, b, rs, r);
  }

  lemma PutFull(c: Keys, t: Table, b: Bucket)
    requires Sound(c, t) && Count(t) == |t| && c.id(b.key) !in Entries(c, t)
    ensures Put(c, t, b) == t
  {
    CountFull(t);
    forall q | 0 <= q < |t| ensures Occupied(t[q]) && !Matches(c, b.key, t[q]) {
      EntryAt(c, t, q);
    }
    PutRefuses(c, t, b);
  }

  /** What storing a bucket means for table and map. */
  lemma PutMeaning(c: Keys, t: Table, b: Bucket)
    requires Sound(c, t) && Reachable(t) && Occupied(b) && b.hash == c.hash(c.id(b.key))
    requires Count(t) < |t| || c.id(b.key) in Entries(c, t)
    ensures Sound(c, Put(c, t, b)) && Reachable(Put(c, t, b))
    ensures Entries(c, Put(c, t, b)) == Entries(c, t)[c.id(b.key) := Entry(b.key, b.value)]
    ensures Count(Put(c, t, b)) == Count(t) + (if c.id(b.key) in Entries(c, t) then 0 else 1)
  {
    CountFull(t);
    if Refuses(c, t, b.key) {
      var p := EntryFrom(c, t, c.id(b.key));
    }
    var i, added := LandsSomewhere(c, t, b);
    PlaceMeaning(c, t, b, Some(i), added);
    LandsEntries(c, t, b, i, added);
    PutLands(c, t, b, i, added);
  }

  /** After an insertion the map is the one of the buckets kept with the key set; size is right exactly when none was lost. */
  lemma InsertedMeaning(c: Keys, t: Table, d: Decision, b: Bucket)
    requires Sound(c, t) && Reachable(t) && Occupied(b) && b.hash == c.hash(c.id(b.key))
    requires d.Grow? ==> d.nelem >= Count(t)
    requires Count(t) < |t| || c.id(b.key) in Entries(c, t) || (d.Grow? && d.nelem != Count(t))
    ensures var u, base := Inserted(c, t, d, b, Ok), Base(c, t, d, Ok);
      && Sound(c, u) && Reachable(u)
      && Entries(c, u) == Entries(c, base)[c.id(b.key) := Entry(b.key, b.value)]
      && (Count(u) == Count(t) + Added(c, t, d, b.key, Ok) <==> Count(base) == Count(t))
      && (Count(base) == Count(t) <==> !(d.Grow? && d.nelem != Count(t) && Dropped(t, d.nelem)))
      && (Count(base) == Count(t) ==> Entries(c, base) == Entries(c, t))
  {
    BaseWorks(c, t, d, Ok);
    var base := Base(c, t, d, Ok);
    PutMeaning(c, base, b);
    if d.Grow? && d.nelem != Count(t) {
      ResizedMeaning(c, t, d.nelem, base);
    }
  }

  /** A resize that grows loses nothing. */
  lemma GrowingInsertMeaning(c: Keys, t: Table, d: Decision, b: Bucket, r: Status)
    requires Sound(c, t) && Reachable(t) && Occupied(b) && b.hash == c.hash(c.id(b.key))
    requires d.Grow? ==> d.nelem > |t|
    requires r == Ok ==> Count(t) < |t| || c.id(b.key) in Entries(c, t) || d.Grow?
    ensures Sound(c, Inserted(c, t, d, b, r)) && Reachable(Inserted(c, t, d, b, r))
    ensures Count(Inserted(c, t, d, b, r)) == Count(t) + Added(c, t, d, b.key, r)
    ensures Entries(c, Inserted(c, t, d, b, r)) == if r == Ok then Entries(c, t)[c.id(b.key) := Entry(b.key, b.value)] else Entries(c, t)
  {
    if r == Ok {
      CountFull(t);
      InsertedMeaning(c, t, d, b);
    }
  }

  /** What maybe_resize returns for a decision. */
  function ResizeStatus(d: Decision, size: nat, reallocOk: bool, callocOk: bool): Status {
    match d
    case Refuse(status) => status
    case Enough => Ok
    case Grow(nelem) => ResizeOutcome(size, nelem, reallocOk, callocOk)
  }

  /** The first k buckets from home are all occupied by entries with other hashes. */
  ghost predicate Unhashed(t: Table, home: nat, hash: SizeT, k: nat)
    requires home < |t|
  {
    forall q :: 0 <= q < |t| && Steps(home, q, |t|) < k ==> Occupied(t[q]) && t[q].hash != hash
  }

  lemma HashAbsent(c: Keys, t: Table, hash: SizeT, i: nat, k: nat)
    requires i < |t| && Sound(c, t) && Reachable(t)
    requires Unhashed(t, Home(hash, |t|), hash, k)
    requires k == |t| || (!Occupied(t[i]) && Steps(Home(hash, |t|), i, |t|) == k)
    ensures forall x :: x in Entries(c, t) ==> c.hash(x) != hash
  {
    forall x | x in Entries(c, t) ensures c.hash(x) != hash {
      var p := EntryFrom(c, t, x);
    }
  }

  method CopyBack(dst: array<Bucket>, src: array<Bucket>, n: nat)
    requires dst != src && dst.Length == src.Length == n
    modifies dst
    ensures dst[..n] == src[..n]
  {
    forall i | 0 <= i < n { dst[i] := src[i]; }
  }

  lemma RehashedResized(c: Keys, t: Table, nelem: nat, padded: Table, u: Table)
    requires |padded| == nelem && Live(padded) == Live(Prefix(t, nelem)) && Rehashed(c, padded, nelem, u)
    ensures Resized(c, t, nelem, u)
  {
    assert padded[..nelem] == padded;
  }

  /** Some entry sits at or beyond bucket nelem. */
  predicate Dropped(t: Table, nelem: nat) {
    exists p :: nelem <= p < |t| && Occupied(t[p])
  }

  function Prefix(t: Table, nelem: nat): Table {
    if |t| <= nelem then t else t[..nelem]
  }

  /** u is a well-formed table of nelem buckets with the entries of t's first nelem buckets. */
  ghost predicate Resized(c: Keys, t: Table, nelem: nat, u: Table) {
    |u| == nelem && Sound(c, u) && Reachable(u) && Live(u) == Live(Prefix(t, nelem))
  }

  lemma PrefixSound(c: Keys, t: Table, nelem: nat)
    requires Sound(c, t)
    ensures Sound(c, Prefix(t, nelem))
  {
  }

  /** A resize keeps the map exactly when every bucket it drops is free. */
  lemma ResizedMeaning(c: Keys, t: Table, nelem: nat, u: Table)
    requires Sound(c, t) && Resized(c, t, nelem, u)
    ensures Count(u) == Count(t) <==> !Dropped(t, nelem)
    ensures Count(u) == Count(t) ==> Entries(c, u) == Entries(c, t)
  {
    LiveCount(u);
    LiveCount(Prefix(t, nelem));
    if |t| > nelem {
      CountPrefix(t, nelem);
    }
    if Live(u) == Live(t) {
      SameLiveSameEntries(c, u, t);
    }
  }

  /** Resizing an empty map leaves it empty, whatever bucket array it had. */
  lemma PadEmpty(c: Keys, t: Table, nelem: nat, u: Table)
    requires Sound(c, t) && Count(t) == 0 && |u| == nelem && Padded(u, Prefix(t, nelem))
    ensures Resized(c, t, nelem, u) && Count(u) == 0 && Entries(c, u) == Entries(c, t) && !Dropped(t, nelem)
  {
    CountPrefix(t, 0);
    EmptyTable(c, t);
    EmptyTable(c, Prefix(t, nelem));
    forall p | 0 <= p < |u| ensures !Occupied(u[p]) {
      if p < |Prefix(t, nelem)| { assert u[p] == Prefix(t, nelem)[p]; }
    }
    EmptyTable(c, u);
  }

  lemma UpdateKeeps(c: Keys, t: Table, i: nat, b: Bucket)
    requires i < |t| && Sound(c, t) && Reachable(t) && Occupied(t[i])
    requires b.hash == t[i].hash && b.key == t[i].key
    ensures Sound(c, t[i := b]) && Reachable(t[i := b]) && Count(t[i := b]) == Count(t)
    ensures Entries(c, t[i := b]) == Entries(c, t)[c.id(b.key) := Entry(b.key, b.value)]
  {
    StoreEntries(c, t, i, b);
    CountStore(t, i, b);
  }

  lemma FindBucketMeaning(c: Keys, t: Table, key: Pointer)
    requires Sound(c, t)
    ensures Reachable(t) ==> (Found(c, t, key) <==> c.id(key) in Entries(c, t))
  {
    LookupsExact(c, t);
  }

  /** A probe that stopped at a gap without a match proves the key absent. */
  lemma AbsentAtGap(c: Keys, t: Table, key: Pointer, i: nat)
    requires i < |t| && Sound(c, t) && Reachable(t) && !Occupied(t[i])
    requires var home := Home(c.hash(c.id(key)), |t|); Missed(c, t, home, key, Steps(home, i, |t|))
    ensures c.id(key) !in Entries(c, t)
  {
    GapNotFound(c, t, key, Home(c.hash(c.id(key)), |t|), i);
    LookupsExact(c, t);
  }
}
