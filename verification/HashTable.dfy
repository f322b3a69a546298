/** Open-addressing bucket tables as values: what a table means, and what one store into it changes. */
module HashTable {
  import opened Machine

  type Pointer = nat
  const NULL: Pointer := 0
  const INVALID_HASH: SizeT := 0xFFFF_FFFF_FFFF_FFFF

  datatype Bucket = Bucket(hash: SizeT, key: Pointer, value: Pointer)
  const EMPTY := Bucket(INVALID_HASH, NULL, NULL)

  type Table = seq<Bucket>

  predicate Occupied(b: Bucket) { b.hash != INVALID_HASH }

  // ----- keys

  /** The two user procedures; what keys point at does not change while they are in a map. */
  datatype Procs = Procs(hash: Pointer -> SizeT, compare: (Pointer, Pointer) -> bool)

  /** compare is an equivalence and equal keys hash alike. */
  ghost predicate Lawful(f: Procs) {
    && (forall a :: f.compare(a, a))
    && (forall a, b :: f.compare(a, b) ==> f.compare(b, a) && f.hash(a) == f.hash(b))
    && (forall a, b, c :: f.compare(a, b) && f.compare(b, c) ==> f.compare(a, c))
  }

  /** A key's identity, one per class of equal keys, and the hash every key of that class has. */
  datatype Keys = Keys(id: Pointer -> Pointer, hash: Pointer -> SizeT)

  ghost predicate Views(f: Procs, c: Keys) {
    && (forall a, b {:trigger f.compare(a, b)} :: f.compare(a, b) <==> c.id(a) == c.id(b))
    && (forall a {:trigger f.hash(a)} :: f.hash(a) == c.hash(c.id(a)))
  }

  /** The least key from i on that compares equal to a. */
  ghost function Least(f: Procs, a: Pointer, i: nat): (r: Pointer)
    requires Lawful(f) && i <= a
    ensures i <= r <= a && f.compare(r, a)
    ensures forall b :: i <= b < r ==> !f.compare(b, a)
    decreases a - i
  {
    if f.compare(i, a) then i else Least(f, a, i + 1)
  }

  /** Lawful procedures are exactly those that compare identities and hash them. */
  lemma LawfulHasView(f: Procs)
    ensures Lawful(f) <==> exists c :: Views(f, c)
  {
    if Lawful(f) {
      var c := Keys(a => Least(f, a, 0), f.hash);
      forall a, b ensures f.compare(a, b) <==> c.id(a) == c.id(b) {
        SameLeast(f, a, b);
      }
      assert Views(f, c);
    }
  }

  lemma SameLeast(f: Procs, a: Pointer, b: Pointer)
    requires Lawful(f)
    ensures f.compare(a, b) <==> Least(f, a, 0) == Least(f, b, 0)
  {
    var x, y := Least(f, a, 0), Least(f, b, 0);
    if f.compare(a, b) {
      assert f.compare(x, b) && f.compare(y, a);
    }
  }

  // ----- positions

  function Home(hash: SizeT, n: nat): (r: nat)
    requires n > 0
    ensures r < n
    ensures hash < n ==> r == hash
  {
    hash % n
  }

  /** The bucket after i in a circle of n. */
  function Next(i: nat, n: nat): (r: nat)
    requires i < n
    ensures r == if i + 1 == n then 0 else i + 1
  {
    (i + 1) % n
  }

  /** Number of steps from bucket `from` forward to bucket `to` in a circle of n. */
  function Steps(from: nat, to: nat, n: nat): nat
    requires from < n && to < n
  {
    if to >= from then to - from else to + n - from
  }

  /** Every bucket cyclically from an entry's home up to the entry is occupied. */
  ghost predicate Reachable(t: Table) {
    forall p, q :: 0 <= p < |t| && 0 <= q < |t| && Occupied(t[p])
      && Steps(Home(t[p].hash, |t|), q, |t|) < Steps(Home(t[p].hash, |t|), p, |t|)
      ==> Occupied(t[q])
  }

  // ----- what a table holds

  /** Occupied buckets carry their key's hash. */
  ghost predicate Hashed(c: Keys, t: Table) {
    forall p :: 0 <= p < |t| && Occupied(t[p]) ==> t[p].hash == c.hash(c.id(t[p].key))
  }

  /** No two occupied buckets hold the same key. */
  ghost predicate Distinct(c: Keys, t: Table) {
    forall p, q :: 0 <= p < q < |t| && Occupied(t[p]) && Occupied(t[q]) ==> c.id(t[p].key) != c.id(t[q].key)
  }

  ghost predicate Sound(c: Keys, t: Table) {
    Hashed(c, t) && Distinct(c, t)
  }

  /** The key pointer and value stored for one key identity. */
  datatype Entry = Entry(key: Pointer, value: Pointer)
  type Model = map<Pointer, Entry>

  /** The finite map a table stands for, by key identity. */
  ghost function Entries(c: Keys, t: Table): Model {
    if t == [] then map[]
    else
      var m := Entries(c, t[..|t| - 1]);
      var b := t[|t| - 1];
      if Occupied(b) then m[c.id(b.key) := Entry(b.key, b.value)] else m
  }

  function One(b: Bucket): multiset<Bucket> {
    if Occupied(b) then multiset{b} else multiset{}
  }

  /** The occupied buckets, wherever they are. */
  function Live(t: Table): multiset<Bucket> {
    if t == [] then multiset{} else Live(t[..|t| - 1]) + One(t[|t| - 1])
  }

  lemma {:induction false} LiveStore(t: Table, i: nat, b: Bucket)
    requires i < |t|
    ensures Live(t[i := b]) + One(t[i]) == Live(t) + One(b)
  {
    var n := |t| - 1;
    var u := t[i := b];
    if i == n {
      assert u[..n] == t[..n];
      SwapSummands(Live(t[..n]), One(b), One(t[n]));
    } else {
      var rest := t[..n];
      assert u[..n] == rest[i := b];
      LiveStore(rest, i, b);
      SwapSummands(Live(rest[i := b]), One(t[n]), One(t[i]));
      SwapSummands(Live(rest), One(t[n]), One(b));
    }
  }

  lemma SwapSummands(a: multiset<Bucket>, x: multiset<Bucket>, y: multiset<Bucket>)
    ensures a + x + y == a + y + x
  {
  }

  lemma CancelSummand(a: multiset<Bucket>, b: multiset<Bucket>, x: multiset<Bucket>)
    requires a + x == b + x
    ensures a == b
  {
    forall e ensures a[e] == b[e] {
      assert (a + x)[e] == (b + x)[e];
    }
  }

  lemma {:induction false} LiveMember(t: Table, b: Bucket)
    ensures b in Live(t) <==> exists p :: 0 <= p < |t| && t[p] == b && Occupied(b)
  {
    if t != [] {
      var n := |t| - 1;
      var rest := t[..n];
      LiveMember(rest, b);
      assert forall p :: 0 <= p < n ==> rest[p] == t[p];
    }
  }

  /** The number of occupied buckets. */
  function Count(t: Table): nat {
    if t == [] then 0 else Count(t[..|t| - 1]) + if Occupied(t[|t| - 1]) then 1 else 0
  }

  lemma {:induction false} LiveCount(t: Table)
    ensures |Live(t)| == Count(t)
  {
    if t != [] {
      LiveCount(t[..|t| - 1]);
    }
  }

  /** A table with fewer live entries than buckets has a free one, and only such a table. */
  lemma {:induction false} CountFull(t: Table)
    ensures Count(t) <= |t|
    ensures Count(t) == |t| <==> forall p :: 0 <= p < |t| ==> Occupied(t[p])
  {
    if t != [] {
      var rest := t[..|t| - 1];
      CountFull(rest);
      assert forall p :: 0 <= p < |rest| ==> rest[p] == t[p];
      if Count(t) < |t| && Count(rest) < |rest| {
        var p :| 0 <= p < |rest| && !Occupied(rest[p]);
        assert !Occupied(t[p]);
      }
    }
  }

  lemma {:induction false} CountStore(t: Table, i: nat, b: Bucket)
    requires i < |t| && Occupied(t[i]) && Occupied(b)
    ensures Count(t[i := b]) == Count(t)
  {
    var n := |t| - 1;
    if i == n {
      assert t[i := b][..n] == t[..n];
    } else {
      assert t[i := b][..n] == t[..n][i := b];
      CountStore(t[..n], i, b);
    }
  }

  lemma {:induction false} CountAdd(t: Table, i: nat, b: Bucket)
    requires i < |t| && !Occupied(t[i]) && Occupied(b)
    ensures Count(t[i := b]) == Count(t) + 1
  {
    var n := |t| - 1;
    if i == n {
      assert t[i := b][..n] == t[..n];
    } else {
      assert t[i := b][..n] == t[..n][i := b];
      CountAdd(t[..n], i, b);
    }
  }

  lemma {:induction false} EmptyTable(c: Keys, t: Table)
    requires forall p :: 0 <= p < |t| ==> !Occupied(t[p])
    ensures Live(t) == multiset{} && Count(t) == 0 && Entries(c, t) == map[]
    ensures Sound(c, t) && Reachable(t)
  {
    if t != [] { EmptyTable(c, t[..|t| - 1]); }
  }

  /** Every occupied bucket is in the map. */
  lemma {:induction false} EntryAt(c: Keys, t: Table, p: nat)
    requires Sound(c, t) && p < |t| && Occupied(t[p])
    ensures c.id(t[p].key) in Entries(c, t)
    ensures Entries(c, t)[c.id(t[p].key)] == Entry(t[p].key, t[p].value)
  {
    var n := |t| - 1;
    if p < n {
      assert t[..n][p] == t[p];
      EntryAt(c, t[..n], p);
    }
  }

  /** Everything in the map is in an occupied bucket. */
  lemma {:induction false} EntryFrom(c: Keys, t: Table, k: Pointer) returns (p: nat)
    requires k in Entries(c, t)
    ensures p < |t| && Occupied(t[p]) && c.id(t[p].key) == k
  {
    var n := |t| - 1;
    if Occupied(t[n]) && c.id(t[n].key) == k {
      p := n;
    } else {
      p := EntryFrom(c, t[..n], k);
    }
  }

  /** As many map entries as occupied buckets. */
  lemma {:induction false} EntriesSize(c: Keys, t: Table)
    requires Sound(c, t)
    ensures |Entries(c, t)| == Count(t)
  {
    if t != [] {
      var n := |t| - 1;
      var rest := t[..n];
      assert forall p :: 0 <= p < n ==> rest[p] == t[p];
      EntriesSize(c, rest);
      var m, b := Entries(c, rest), t[n];
      if Occupied(b) {
        if c.id(b.key) in m {
          var p := EntryFrom(c, rest, c.id(b.key));
        }
        assert |m[c.id(b.key) := Entry(b.key, b.value)]| == |m| + 1;
      }
    }
  }

  ghost function Forget(c: Keys, m: Model, b: Bucket): Model {
    if Occupied(b) then m - {c.id(b.key)} else m
  }

  ghost function Remember(c: Keys, m: Model, b: Bucket): Model {
    if Occupied(b) then m[c.id(b.key) := Entry(b.key, b.value)] else m
  }

  /** What one store into a bucket does to the map. */
  lemma StoreEntries(c: Keys, t: Table, i: nat, b: Bucket)
    requires Sound(c, t) && i < |t| && Sound(c, t[i := b])
    ensures Entries(c, t[i := b]) == Remember(c, Forget(c, Entries(c, t), t[i]), b)
  {
    var r := Remember(c, Forget(c, Entries(c, t), t[i]), b);
    forall k | k in r ensures k in Entries(c, t[i := b]) && Entries(c, t[i := b])[k] == r[k] {
      StoreKeeps(c, t, i, b, k);
    }
    forall k | k in Entries(c, t[i := b]) ensures k in r {
      StoreAddsOnly(c, t, i, b, k);
    }
  }

  lemma StoreKeeps(c: Keys, t: Table, i: nat, b: Bucket, k: Pointer)
    requires Sound(c, t) && i < |t| && Sound(c, t[i := b])
    requires k in Remember(c, Forget(c, Entries(c, t), t[i]), b)
    ensures k in Entries(c, t[i := b])
    ensures Entries(c, t[i := b])[k] == Remember(c, Forget(c, Entries(c, t), t[i]), b)[k]
  {
    var u := t[i := b];
    if Occupied(b) && k == c.id(b.key) {
      EntryAt(c, u, i);
    } else {
      var p := EntryFrom(c, t, k);
      EntryAt(c, t, p);
      EntryAt(c, u, p);
    }
  }

  lemma StoreAddsOnly(c: Keys, t: Table, i: nat, b: Bucket, k: Pointer)
    requires Sound(c, t) && i < |t| && Sound(c, t[i := b])
    requires k in Entries(c, t[i := b])
    ensures k in Remember(c, Forget(c, Entries(c, t), t[i]), b)
  {
    var u := t[i := b];
    var p := EntryFrom(c, u, k);
    if p != i {
      EntryAt(c, t, p);
    }
  }

  /** Tables holding the same buckets stand for the same map. */
  lemma SameLiveSameEntries(c: Keys, t: Table, u: Table)
    requires Sound(c, t) && Sound(c, u) && Live(t) == Live(u)
    ensures Entries(c, t) == Entries(c, u)
  {
    LiveSubEntries(c, t, u);
    LiveSubEntries(c, u, t);
  }

  lemma LiveSubEntries(c: Keys, t: Table, u: Table)
    requires Sound(c, t) && Sound(c, u) && Live(t) == Live(u)
    ensures forall k :: k in Entries(c, t) ==> k in Entries(c, u) && Entries(c, u)[k] == Entries(c, t)[k]
  {
    forall k | k in Entries(c, t)
      ensures k in Entries(c, u) && Entries(c, u)[k] == Entries(c, t)[k]
    {
      var p := EntryFrom(c, t, k);
      LiveMember(t, t[p]);
      LiveMember(u, t[p]);
      var q :| 0 <= q < |u| && u[q] == t[p];
      EntryAt(c, t, p);
      EntryAt(c, u, q);
    }
  }

  // ----- probing

  predicate Matches(c: Keys, key: Pointer, b: Bucket) {
    Occupied(b) && c.id(key) == c.id(b.key)
  }

  /** The first k buckets from home are all occupied by other keys. */
  ghost predicate Missed(c: Keys, t: Table, home: nat, key: Pointer, k: nat)
    requires home < |t|
  {
    forall q :: 0 <= q < |t| && Steps(home, q, |t|) < k ==> Occupied(t[q]) && !Matches(c, key, t[q])
  }

  lemma MissedNext(c: Keys, t: Table, home: nat, key: Pointer, i: nat)
    requires home < |t| && i < |t| && Missed(c, t, home, key, Steps(home, i, |t|))
    requires Occupied(t[i]) && !Matches(c, key, t[i])
    ensures Missed(c, t, home, key, Steps(home, i, |t|) + 1)
  {
  }

  /** Bucket i is where find_bucket finds key: the first match from the key's home, with no gap before it. */
  ghost predicate Finds(c: Keys, t: Table, key: Pointer, i: nat) {
    && i < |t| && Matches(c, key, t[i])
    && Missed(c, t, Home(c.hash(c.id(key)), |t|), key, Steps(Home(c.hash(c.id(key)), |t|), i, |t|))
  }

  ghost predicate Found(c: Keys, t: Table, key: Pointer) {
    exists i: nat :: Finds(c, t, key, i)
  }

  lemma FoundMapped(c: Keys, t: Table, key: Pointer, i: nat)
    requires Sound(c, t) && Finds(c, t, key, i)
    ensures c.id(key) in Entries(c, t) && Entries(c, t)[c.id(key)] == Entry(t[i].key, t[i].value)
  {
    EntryAt(c, t, i);
  }

  lemma MappedFound(c: Keys, t: Table, key: Pointer)
    requires Sound(c, t) && Reachable(t) && c.id(key) in Entries(c, t)
    ensures Found(c, t, key)
  {
    var p := EntryFrom(c, t, c.id(key));
    assert Finds(c, t, key, p);
  }

  /** A scan that reaches a gap finds nothing. */
  lemma GapNotFound(c: Keys, t: Table, key: Pointer, home: nat, i: nat)
    requires i < |t| && home == Home(c.hash(c.id(key)), |t|) && !Occupied(t[i])
    requires Missed(c, t, home, key, Steps(home, i, |t|))
    ensures !Found(c, t, key)
  {
  }

  lemma RoundNotFound(c: Keys, t: Table, key: Pointer, home: nat)
    requires home < |t| && Missed(c, t, home, key, |t|)
    ensures !Found(c, t, key)
  {
  }

  /** Lookups are right for every key exactly when every entry can be reached: otherwise one misses a key that is mapped. */
  lemma LookupsExact(c: Keys, t: Table)
    requires Sound(c, t)
    ensures Reachable(t) <==> forall key :: Found(c, t, key) <==> c.id(key) in Entries(c, t)
  {
    forall key | Found(c, t, key) ensures c.id(key) in Entries(c, t) {
      var i: nat :| Finds(c, t, key, i);
      FoundMapped(c, t, key, i);
    }
    if Reachable(t) {
      forall key | c.id(key) in Entries(c, t) ensures Found(c, t, key) {
        MappedFound(c, t, key);
      }
    } else {
      var p := Stranded(c, t);
      EntryAt(c, t, p);
    }
  }

  /** Behind a gap there is a key that no lookup finds. */
  lemma Stranded(c: Keys, t: Table) returns (p: nat)
    requires Sound(c, t) && !Reachable(t)
    ensures p < |t| && Occupied(t[p]) && !Found(c, t, t[p].key)
  {
    var x, q :| 0 <= x < |t| && 0 <= q < |t| && Occupied(t[x]) && !Occupied(t[q])
      && Steps(Home(t[x].hash, |t|), q, |t|) < Steps(Home(t[x].hash, |t|), x, |t|);
    p := x;
    StrandedAt(c, t, p, q);
  }

  lemma StrandedAt(c: Keys, t: Table, p: nat, q: nat)
    requires Sound(c, t) && p < |t| && q < |t| && Occupied(t[p]) && !Occupied(t[q])
    requires Steps(Home(t[p].hash, |t|), q, |t|) < Steps(Home(t[p].hash, |t|), p, |t|)
    ensures !Found(c, t, t[p].key)
  {
  }

  /** Bucket i is where add_or_replace_bucket puts b: the first match or gap from b's home. */
  ghost predicate Lands(c: Keys, t: Table, b: Bucket, i: nat, added: bool) {
    && i < |t|
    && (if added then !Occupied(t[i]) else Matches(c, b.key, t[i]))
    && Missed(c, t, Home(b.hash, |t|), b.key, Steps(Home(b.hash, |t|), i, |t|))
  }

  lemma LandsNoSooner(c: Keys, t: Table, b: Bucket, i: nat, added: bool, j: nat, addedThere: bool)
    requires Lands(c, t, b, i, added) && Lands(c, t, b, j, addedThere)
    ensures Steps(Home(b.hash, |t|), i, |t|) >= Steps(Home(b.hash, |t|), j, |t|)
  {
  }

  /** There is only one such bucket. */
  lemma LandsOnce(c: Keys, t: Table, b: Bucket, i: nat, added: bool, j: nat, addedThere: bool)
    requires Lands(c, t, b, i, added) && Lands(c, t, b, j, addedThere)
    ensures i == j && added == addedThere
  {
    LandsNoSooner(c, t, b, i, added, j, addedThere);
    LandsNoSooner(c, t, b, j, addedThere, i, added);
  }

  /** The table after add_or_replace_bucket, whether it stores b or finds no place for it. */
  ghost function Put(c: Keys, t: Table, b: Bucket): (u: Table)
    ensures |u| == |t|
  {
    if exists i: nat, added :: Lands(c, t, b, i, added) then
      var i: nat, added :| Lands(c, t, b, i, added);
      t[i := b]
    else t
  }

  lemma PutLands(c: Keys, t: Table, b: Bucket, i: nat, added: bool)
    requires Lands(c, t, b, i, added)
    ensures Put(c, t, b) == t[i := b]
  {
    var j: nat, there :| Lands(c, t, b, j, there) && Put(c, t, b) == t[j := b];
    LandsOnce(c, t, b, i, added, j, there);
  }

  lemma PutRefuses(c: Keys, t: Table, b: Bucket)
    requires Refuses(c, t, b.key)
    ensures Put(c, t, b) == t
  {
  }
  /** Where the key is. */
  ghost function IndexOf(c: Keys, t: Table, key: Pointer): (at: Option<nat>)
    ensures at.Some? ==> at.value < |t| && Matches(c, key, t[at.value])
  {
    if exists i: nat :: i < |t| && Matches(c, key, t[i]) then
      var i: nat :| i < |t| && Matches(c, key, t[i]);
      Some(i)
    else None
  }

  lemma IndexIs(c: Keys, t: Table, key: Pointer, i: nat)
    requires Sound(c, t) && i < |t| && Matches(c, key, t[i])
    ensures IndexOf(c, t, key) == Some(i)
  {
  }

  lemma IndexMapped(c: Keys, t: Table, key: Pointer)
    requires Sound(c, t)
    ensures IndexOf(c, t, key).Some? <==> c.id(key) in Entries(c, t)
  {
    if IndexOf(c, t, key).Some? {
      EntryAt(c, t, IndexOf(c, t, key).value);
    }
    if c.id(key) in Entries(c, t) {
      var p := EntryFrom(c, t, c.id(key));
      assert Matches(c, key, t[p]);
    }
  }

  /** The table after the key's value is replaced. */
  ghost function Revalue(c: Keys, t: Table, key: Pointer, value: Pointer): (u: Table)
    ensures |u| == |t|
  {
    var at := IndexOf(c, t, key);
    if at.Some? then t[at.value := t[at.value].(value := value)] else t
  }

  /** No bucket is free and none holds the key. */
  ghost predicate Refuses(c: Keys, t: Table, key: Pointer) {
    forall q :: 0 <= q < |t| ==> Occupied(t[q]) && !Matches(c, key, t[q])
  }

  /** A landing bucket is the only one that may hold the key, whatever stopped the probe. */
  lemma LandsComplete(c: Keys, t: Table, b: Bucket, i: nat, added: bool, q: nat)
    requires Sound(c, t) && Reachable(t) && Lands(c, t, b, i, added)
    requires b.hash == c.hash(c.id(b.key))
    requires q < |t| && q != i
    ensures !Matches(c, b.key, t[q])
  {
  }

  lemma LandsKeepsSound(c: Keys, t: Table, b: Bucket, i: nat, added: bool)
    requires Sound(c, t) && Reachable(t) && Lands(c, t, b, i, added)
    requires Occupied(b) && b.hash == c.hash(c.id(b.key))
    ensures Sound(c, t[i := b]) && Reachable(t[i := b])
  {
    forall q | 0 <= q < |t| && q != i && Occupied(t[q])
      ensures c.id(b.key) != c.id(t[q].key)
    {
      LandsComplete(c, t, b, i, added, q);
    }
    if !added {
      assert t[i].hash == b.hash;
    }
  }

  /** Landing stores the entry in the map, and adds exactly when the key was absent. */
  lemma LandsEntries(c: Keys, t: Table, b: Bucket, i: nat, added: bool)
    requires Sound(c, t) && Reachable(t) && Lands(c, t, b, i, added)
    requires Occupied(b) && b.hash == c.hash(c.id(b.key))
    requires Sound(c, t[i := b])
    ensures Entries(c, t[i := b]) == Entries(c, t)[c.id(b.key) := Entry(b.key, b.value)]
    ensures added <==> c.id(b.key) !in Entries(c, t)
  {
    StoreEntries(c, t, i, b);
    if !added { EntryAt(c, t, i); }
    if added && c.id(b.key) in Entries(c, t) {
      var p := EntryFrom(c, t, c.id(b.key));
      LandsComplete(c, t, b, i, added, p);
    }
  }

  // ----- emptying and moving buckets

  /** Emptying bucket i forgets exactly its key. */
  lemma EraseEntries(c: Keys, t: Table, i: nat)
    requires Sound(c, t) && i < |t| && Occupied(t[i])
    ensures Sound(c, t[i := EMPTY])
    ensures Entries(c, t[i := EMPTY]) == Entries(c, t) - {c.id(t[i].key)}
    ensures Live(t[i := EMPTY]) == Live(t) - multiset{t[i]}
  {
    StoreEntries(c, t, i, EMPTY);
    LiveStore(t, i, EMPTY);
    assert Live(t[i := EMPTY]) + multiset{t[i]} == Live(t);
  }

  /** Moving an entry into an empty bucket changes positions only. */
  lemma MoveKeepsLive(t: Table, hole: nat, from: nat)
    requires hole < |t| && from < |t| && hole != from
    requires !Occupied(t[hole])
    ensures Live(t[hole := t[from]][from := EMPTY]) == Live(t)
  {
    var s := t[hole := t[from]];
    LiveStore(t, hole, t[from]);
    LiveStore(s, from, EMPTY);
    assert s[from] == t[from];
    CancelSummand(Live(s[from := EMPTY]), Live(t), One(t[from]));
  }

  lemma MoveKeepsSound(c: Keys, t: Table, hole: nat, from: nat)
    requires Sound(c, t) && hole < |t| && from < |t| && hole != from
    requires !Occupied(t[hole]) && Occupied(t[from])
    ensures Sound(c, t[hole := t[from]][from := EMPTY])
  {
    var u := t[hole := t[from]][from := EMPTY];
    forall p, q | 0 <= p < q < |u| && Occupied(u[p]) && Occupied(u[q])
      ensures c.id(u[p].key) != c.id(u[q].key)
    {
      var p0, q0 := if p == hole then from else p, if q == hole then from else q;
      assert u[p] == t[p0] && u[q] == t[q0] && p0 != q0;
    }
  }
}
