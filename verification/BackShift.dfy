/** The table left by vsc_hashmap_remove, and exactly when it still finds every key. */
module BackShift {
  import opened HashTable

  /** The gap-filling scan: bucket `hole` is empty, bucket `at` is looked at next. */
  datatype Scan = Scan(t: Table, hole: nat, at: nat) {
    ghost predicate Valid() {
      hole < |t| && at < |t| && !Occupied(t[hole])
    }

    predicate Movable()
      requires Valid()
    {
      Home(t[at].hash, |t|) <= hole
    }

    function Advance(): (r: Scan)
      requires Valid() && Occupied(t[at])
      ensures r.Valid() && |r.t| == |t| && r.at == Next(at, |t|)
    {
      if Movable() then Scan(t[hole := t[at]][at := EMPTY], at, Next(at, |t|))
      else Scan(t, hole, Next(at, |t|))
    }
  }

  function Refill(s: Scan, fuel: nat): (r: Table)
    requires s.Valid()
    ensures |r| == |s.t|
    decreases fuel
  {
    if fuel == 0 || !Occupied(s.t[s.at]) then s.t else Refill(s.Advance(), fuel - 1)
  }

  /** The scan begins behind the emptied bucket p and looks at no more than |t| buckets. */
  function Opened(t: Table, p: nat): (s: Scan)
    requires p < |t|
    ensures s.Valid()
  {
    Scan(t[p := EMPTY], p, Next(p, |t|))
  }

  function RemoveAt(t: Table, p: nat): (r: Table)
    requires p < |t|
    ensures |r| == |t|
  {
    Refill(Opened(t, p), |t|)
  }

  // ----- what holds in every case, wrapped run or full table included

  lemma AdvanceKeeps(c: Keys, s: Scan)
    requires s.Valid() && Occupied(s.t[s.at]) && Sound(c, s.t)
    ensures Live(s.Advance().t) == Live(s.t)
    ensures Sound(c, s.Advance().t)
  {
    if s.Movable() {
      MoveKeepsLive(s.t, s.hole, s.at);
      MoveKeepsSound(c, s.t, s.hole, s.at);
    }
  }

  lemma {:induction false} RefillKeeps(c: Keys, s: Scan, fuel: nat)
    requires s.Valid() && Sound(c, s.t)
    ensures Live(Refill(s, fuel)) == Live(s.t)
    ensures Sound(c, Refill(s, fuel))
    decreases fuel
  {
    if fuel != 0 && Occupied(s.t[s.at]) {
      AdvanceKeeps(c, s);
      RefillKeeps(c, s.Advance(), fuel - 1);
    }
  }

  /** Removal forgets one key and keeps every other bucket's contents, whatever the layout. */
  lemma RemoveKeepsOthers(c: Keys, t: Table, p: nat)
    requires p < |t| && Occupied(t[p]) && Sound(c, t)
    ensures Sound(c, RemoveAt(t, p))
    ensures Live(RemoveAt(t, p)) == Live(t) - multiset{t[p]} && t[p] in Live(t)
    ensures Entries(c, RemoveAt(t, p)) == Entries(c, t) - {c.id(t[p].key)}
    ensures Count(RemoveAt(t, p)) == Count(t) - 1
  {
    var u := t[p := EMPTY];
    EraseEntries(c, t, p);
    LiveMember(t, t[p]);
    RefillKeeps(c, Opened(t, p), |t|);
    SameLiveSameEntries(c, RemoveAt(t, p), u);
    LiveCount(RemoveAt(t, p));
    LiveCount(t);
  }

  // ----- when lookups keep working

  /** The run of occupied buckets around p goes over the end of the array, on a side the scan visits. */
  predicate Crosses(t: Table, p: nat)
    requires p < |t|
  {
    || (0 < p && |t| > 2 && Occupied(t[0]) && forall q :: p <= q < |t| ==> Occupied(t[q]))
    || (p + 1 < |t| && Occupied(t[|t| - 1]) && forall q :: 0 <= q <= p + 1 ==> Occupied(t[q]))
  }

  /** Reachable, but for the bucket that was just emptied. */
  ghost predicate ReachableBut(t: Table, hole: nat) {
    forall p, q :: 0 <= p < |t| && 0 <= q < |t| && Occupied(t[p])
      && Steps(Home(t[p].hash, |t|), q, |t|) < Steps(Home(t[p].hash, |t|), p, |t|)
      ==> Occupied(t[q]) || q == hole
  }

  /** Entries that sit before their home do so clear of the scan. */
  ghost predicate WrapsClear(t: Table, lo: nat, hole: nat) {
    forall p :: 0 <= p < |t| && Occupied(t[p]) && Home(t[p].hash, |t|) > p ==> p < lo && hole < Home(t[p].hash, |t|)
  }

  /** Midway through a scan begun at lo that has not wrapped. */
  ghost predicate Scanning(t: Table, lo: nat, hole: nat, at: nat) {
    && lo <= hole < at <= |t| && !Occupied(t[hole])
    && (forall q :: lo <= q < at && q != hole ==> Occupied(t[q]))
    && ReachableBut(t, hole)
    && (forall p :: hole < p < at ==> Home(t[p].hash, |t|) > hole)
    && WrapsClear(t, lo, hole)
    && ((forall q :: at <= q < |t| ==> Occupied(t[q])) ==> (lo > 0 || |t| == 1) && !Occupied(t[0]))
  }

  lemma ScanDone(t: Table, lo: nat, hole: nat, at: nat)
    requires Scanning(t, lo, hole, at)
    requires at == |t| || !Occupied(t[at])
    ensures Reachable(t)
  {
  }

  lemma MoveReachable(t: Table, hole: nat, at: nat)
    requires hole < at < |t| && !Occupied(t[hole]) && Occupied(t[at])
    requires ReachableBut(t, hole) && Home(t[at].hash, |t|) <= hole
    ensures ReachableBut(t[hole := t[at]][at := EMPTY], at)
  {
    var n, u := |t|, t[hole := t[at]][at := EMPTY];
    forall p, q | 0 <= p < n && 0 <= q < n && Occupied(u[p])
      && Steps(Home(u[p].hash, n), q, n) < Steps(Home(u[p].hash, n), p, n)
      ensures Occupied(u[q]) || q == at
    {
      if p != hole { assert u[p] == t[p]; }
    }
  }

  lemma MoveWrapsClear(t: Table, lo: nat, hole: nat, at: nat)
    requires Scanning(t, lo, hole, at) && at < |t| && Occupied(t[at])
    ensures forall p :: 0 <= p < |t| && Occupied(t[p]) && Home(t[p].hash, |t|) > p ==> at < Home(t[p].hash, |t|)
  {
  }

  lemma ScanMoves(t: Table, lo: nat, hole: nat, at: nat)
    requires Scanning(t, lo, hole, at) && at < |t| && Occupied(t[at])
    requires Home(t[at].hash, |t|) <= hole
    ensures Scanning(t[hole := t[at]][at := EMPTY], lo, at, at + 1)
  {
    MoveReachable(t, hole, at);
    MoveWrapsClear(t, lo, hole, at);
    var u := t[hole := t[at]][at := EMPTY];
    if forall q :: at + 1 <= q < |u| ==> Occupied(u[q]) {
      forall q | at <= q < |t| ensures Occupied(t[q]) {
        if q > at { assert u[q] == t[q]; }
      }
    }
  }

  lemma ScanSkips(t: Table, lo: nat, hole: nat, at: nat)
    requires Scanning(t, lo, hole, at) && at < |t| && Occupied(t[at])
    requires Home(t[at].hash, |t|) > hole
    ensures Scanning(t, lo, hole, at + 1)
  {
  }

  /** Scanning at `at`, which is one past the end when the scan is about to wrap. */
  ghost predicate InScan(s: Scan, lo: nat, at: nat) {
    && s.Valid() && Scanning(s.t, lo, s.hole, at)
    && s.at == if at < |s.t| then at else 0
  }

  lemma AdvanceInScan(s: Scan, lo: nat, at: nat)
    requires InScan(s, lo, at) && Occupied(s.t[s.at])
    ensures at < |s.t| && InScan(s.Advance(), lo, at + 1)
  {
    if s.Movable() {
      ScanMoves(s.t, lo, s.hole, at);
    } else {
      ScanSkips(s.t, lo, s.hole, at);
    }
  }

  lemma {:induction false} RefillRestores(s: Scan, lo: nat, at: nat, fuel: nat, r: Table)
    requires InScan(s, lo, at) && fuel > |s.t| - at && r == Refill(s, fuel)
    ensures Reachable(r)
    decreases fuel
  {
    RefillNext(s, fuel);
    if Occupied(s.t[s.at]) {
      AdvanceInScan(s, lo, at);
      RefillRestores(s.Advance(), lo, at + 1, fuel - 1, r);
    } else {
      ScanDone(s.t, lo, s.hole, at);
    }
  }

  lemma RefillNext(s: Scan, fuel: nat)
    requires s.Valid() && fuel > 0
    ensures Refill(s, fuel) == if Occupied(s.t[s.at]) then Refill(s.Advance(), fuel - 1) else s.t
  {
  }

  /** When no run crosses, every remaining entry can still be reached from its home. */
  lemma RemoveRestores(t: Table, p: nat)
    requires p < |t| && Occupied(t[p]) && Reachable(t) && !Crosses(t, p)
    ensures Reachable(RemoveAt(t, p))
  {
    if |t| == 2 && p == 1 {
      RemoveSecondOfTwo(t);
    } else {
      ScanStarts(t, p);
      RefillRestores(Opened(t, p), p, p + 1, |t|, RemoveAt(t, p));
    }
  }

  lemma OpenedReachable(t: Table, p: nat)
    requires p < |t| && Occupied(t[p]) && Reachable(t)
    ensures ReachableBut(t[p := EMPTY], p)
  {
  }

  lemma OpenedClear(t: Table, p: nat)
    requires p < |t| && Occupied(t[p]) && Reachable(t) && !Crosses(t, p) && !(|t| == 2 && p == 1)
    ensures WrapsClear(t[p := EMPTY], p, p)
  {
    var n := |t|;
    forall q | 0 <= q < n && q != p && Occupied(t[q]) && Home(t[q].hash, n) > q
      ensures q < p && p < Home(t[q].hash, n)
    {
      WrappedEntry(t, p, q);
    }
  }

  lemma ScanStarts(t: Table, p: nat)
    requires p < |t| && Occupied(t[p]) && Reachable(t) && !Crosses(t, p) && !(|t| == 2 && p == 1)
    ensures Scanning(t[p := EMPTY], p, p, p + 1)
  {
    var n, u := |t|, t[p := EMPTY];
    OpenedReachable(t, p);
    OpenedClear(t, p);
    if forall q :: p + 1 <= q < n ==> Occupied(u[q]) {
      forall q | p < q < n ensures Occupied(t[q]) { assert u[q] == t[q]; }
    }
  }

  lemma RemoveSecondOfTwo(t: Table)
    requires |t| == 2 && Occupied(t[1]) && Reachable(t)
    ensures Reachable(RemoveAt(t, 1))
  {
    var s := Opened(t, 1);
    if Occupied(t[0]) {
      assert s.Movable();
      var s1 := s.Advance();
      assert RemoveAt(t, 1) == Refill(s1, 1);
      if s1.Movable() {
        assert Refill(s1, 1) == s1.Advance().t;
      } else {
        assert Refill(s1, 1) == s1.t;
      }
    }
  }

  /** An entry before its home, in a table where nothing crosses at p, is clear of p on both sides. */
  lemma WrappedEntry(t: Table, p: nat, q: nat)
    requires p < |t| && Occupied(t[p]) && Reachable(t) && !Crosses(t, p) && !(|t| == 2 && p == 1)
    requires q < |t| && q != p && Occupied(t[q]) && Home(t[q].hash, |t|) > q
    ensures q < p && p < Home(t[q].hash, |t|)
  {
    var n, h := |t|, Home(t[q].hash, |t|);
    forall r | 0 <= r < q || h <= r < n ensures Occupied(t[r]) {
      assert Steps(h, r, n) < Steps(h, q, n);
    }
  }

  // ----- a crossing run is unsafe

  ghost predicate SameShape(t: Table, u: Table) {
    |t| == |u| && forall q :: 0 <= q < |t| ==> (Occupied(t[q]) <==> Occupied(u[q]))
  }

  /** Whatever keys a well-formed table has in these occupied buckets, removing bucket p leaves them findable. */
  ghost predicate Safe(t: Table, p: nat)
    requires p < |t|
  {
    forall c, u :: SameShape(t, u) && Sound(c, u) && Reachable(u) ==> Reachable(RemoveAt(u, p))
  }

  /** Removal from bucket p is right for this set of occupied buckets exactly when no run crosses there. */
  lemma RemoveExact(t: Table, p: nat)
    requires p < |t| < INVALID_HASH && Occupied(t[p])
    ensures Safe(t, p) <==> !Crosses(t, p)
  {
    if Crosses(t, p) {
      var homes := BadHomes(t, p);
      var u := Placed(t, homes);
      var c := PlacedSound(t, homes);
      BadHomesBreak(t, p);
      assert SameShape(t, u) && Sound(c, u) && Reachable(u);
    } else {
      forall c, u | SameShape(t, u) && Sound(c, u) && Reachable(u) ensures Reachable(RemoveAt(u, p)) {
        RemoveRestores(u, p);
      }
    }
  }

  /** A table of t's shape whose occupied bucket q holds a key that hashes to homes[q]. */
  ghost function Placed(t: Table, homes: seq<nat>): (u: Table)
    requires |homes| == |t| < INVALID_HASH && forall q :: 0 <= q < |t| ==> homes[q] < |t|
    ensures SameShape(t, u)
    ensures forall q :: 0 <= q < |t| && Occupied(t[q]) ==> u[q] == Bucket(homes[q], q, NULL) && Home(u[q].hash, |u|) == homes[q]
  {
    seq(|t|, q requires 0 <= q < |t| => if Occupied(t[q]) then Bucket(homes[q], q, NULL) else EMPTY)
  }

  lemma PlacedSound(t: Table, homes: seq<nat>) returns (c: Keys)
    requires |homes| == |t| < INVALID_HASH && forall q :: 0 <= q < |t| ==> homes[q] < |t|
    ensures Sound(c, Placed(t, homes))
  {
    var n := |t|;
    c := Keys(k => k, (k: Pointer) => if k < |homes| && homes[k] < INVALID_HASH then homes[k] else 0);
  }

  /** Homes for which removing p from a crossing run goes wrong. */
  ghost function BadHomes(t: Table, p: nat): (homes: seq<nat>)
    requires p < |t| < INVALID_HASH && Crosses(t, p)
    ensures |homes| == |t| && forall q :: 0 <= q < |t| ==> homes[q] < |t|
  {
    var n := |t|;
    if n == 2 || (n == 3 && p == 1) then
      seq(n, q => 0)
    else if Occupied(t[n - 1]) && p + 1 < n - 1 && forall q :: 0 <= q <= p + 1 ==> Occupied(t[q]) then
      seq(n, q requires 0 <= q < n => if q <= p + 1 then n - 1 else q)
    else if Occupied(t[1]) then
      seq(n, q requires 0 <= q < n => if q == 0 then p else if q == 1 then n - 1 else q)
    else
      seq(n, q requires 0 <= q < n => q)
  }

  lemma {:induction false} RefillStuck(s: Scan, fuel: nat)
    requires s.Valid() && forall q :: 0 <= q < |s.t| && Occupied(s.t[q]) ==> Home(s.t[q].hash, |s.t|) > s.hole
    ensures Refill(s, fuel) == s.t
    decreases fuel
  {
    if fuel != 0 && Occupied(s.t[s.at]) {
      RefillStuck(s.Advance(), fuel - 1);
    }
  }

  lemma {:induction false} RefillSkips(s: Scan, fuel: nat)
    requires s.Valid() && fuel >= |s.t| - s.at
    requires forall q :: s.at <= q < |s.t| ==> Occupied(s.t[q]) && Home(s.t[q].hash, |s.t|) > s.hole
    ensures Refill(s, fuel) == Refill(s.(at := 0), fuel - (|s.t| - s.at))
    decreases fuel
  {
    var s' := s.Advance();
    if s.at + 1 < |s.t| {
      RefillSkips(s', fuel - 1);
    }
  }

  lemma BadHomesBreak(t: Table, p: nat)
    requires p < |t| < INVALID_HASH && Crosses(t, p) && Occupied(t[p])
    ensures var u := Placed(t, BadHomes(t, p)); Reachable(u) && !Reachable(RemoveAt(u, p))
  {
    var n, homes := |t|, BadHomes(t, p);
    var u := Placed(t, homes);
    if n == 2 || (n == 3 && p == 1) {
      BreakSmall(t, p);
    } else if Occupied(t[n - 1]) && p + 1 < n - 1 && forall q :: 0 <= q <= p + 1 ==> Occupied(t[q]) {
      BreakBelow(t, p);
    } else {
      BreakAbove(t, p);
    }
  }

  lemma BreakSmall(t: Table, p: nat)
    requires p < |t| < INVALID_HASH && Crosses(t, p) && Occupied(t[p])
    requires |t| == 2 || (|t| == 3 && p == 1)
    ensures var u := Placed(t, BadHomes(t, p)); Reachable(u) && !Reachable(RemoveAt(u, p))
  {
    var n, u := |t|, Placed(t, BadHomes(t, p));
    var s1 := Opened(u, p).Advance();
    var s2 := s1.Advance();
    if n == 2 {
      assert RemoveAt(u, p) == Refill(s1, 1) == Refill(s2, 0) == s2.t;
      assert s2.t[1] == u[1];
      assert Steps(0, 0, n) < Steps(0, 1, n);
    } else {
      var s3 := s2.Advance();
      assert RemoveAt(u, p) == Refill(s1, 2) == Refill(s2, 1) == Refill(s3, 0) == s3.t;
      assert s3.t[2] == u[0];
      assert Steps(0, 1, n) < Steps(0, 2, n);
    }
  }

  lemma BreakBelow(t: Table, p: nat)
    requires p < |t| < INVALID_HASH && Crosses(t, p) && Occupied(t[p])
    requires |t| != 2 && Occupied(t[|t| - 1]) && p + 1 < |t| - 1 && forall q :: 0 <= q <= p + 1 ==> Occupied(t[q])
    requires !(|t| == 3 && p == 1)
    ensures var u := Placed(t, BadHomes(t, p)); Reachable(u) && !Reachable(RemoveAt(u, p))
  {
    var n, u := |t|, Placed(t, BadHomes(t, p));
    var s := Opened(u, p);
    RefillStuck(s, n);
    assert Steps(n - 1, p, n) < Steps(n - 1, p + 1, n);
    assert Occupied(s.t[p + 1]);
  }

  /** The scan passes the end of the array and takes bucket 0 for the gap at p. */
  lemma TakesFirst(u: Table, p: nat)
    requires 0 < p < |u| && Occupied(u[0]) && Home(u[0].hash, |u|) <= p
    requires forall q :: p < q < |u| ==> Occupied(u[q]) && Home(u[q].hash, |u|) > p
    ensures RemoveAt(u, p) == Refill(Scan(u[p := u[0]][0 := EMPTY], 0, 1), p)
  {
    var s := Opened(u, p);
    if p + 1 < |u| {
      RefillSkips(s, |u|);
    }
    var s0 := s.(at := 0);
    assert s.t[0] == u[0];
    assert s0.Advance() == Scan(u[p := u[0]][0 := EMPTY], 0, 1);
    assert Refill(s0, p + 1) == Refill(s0.Advance(), p);
  }

  /** Bucket 0 goes to its home p, and bucket 1 is cut off from its home at the end. */
  lemma CutsOffSecond(u: Table, p: nat)
    requires 1 < p < |u| && Occupied(u[0]) && Occupied(u[1]) && forall q :: p <= q < |u| ==> Occupied(u[q])
    requires Home(u[0].hash, |u|) == p && Home(u[1].hash, |u|) == |u| - 1
    requires forall q :: 2 <= q < |u| && Occupied(u[q]) ==> Home(u[q].hash, |u|) == q
    ensures !Reachable(RemoveAt(u, p))
  {
    var n, t := |u|, u[p := u[0]][0 := EMPTY];
    TakesFirst(u, p);
    RefillStuck(Scan(t, 0, 1), p);
    assert t[1] == u[1];
    assert Steps(n - 1, 0, n) < Steps(n - 1, 1, n);
  }

  /** Bucket 0 leaves its home for p, and is cut off from it. */
  lemma CutsOffFirst(u: Table, p: nat)
    requires 1 < p < |u| && Occupied(u[0]) && !Occupied(u[1]) && forall q :: p <= q < |u| ==> Occupied(u[q])
    requires forall q :: 0 <= q < |u| && Occupied(u[q]) ==> Home(u[q].hash, |u|) == q
    ensures !Reachable(RemoveAt(u, p))
  {
    var n, t := |u|, u[p := u[0]][0 := EMPTY];
    TakesFirst(u, p);
    assert Refill(Scan(t, 0, 1), p) == t;
    assert t[p] == u[0];
    assert Steps(0, 0, n) < Steps(0, p, n);
  }

  lemma BreakAbove(t: Table, p: nat)
    requires 1 < p < |t| < INVALID_HASH && Crosses(t, p) && Occupied(t[p])
    requires Occupied(t[0]) && forall q :: p <= q < |t| ==> Occupied(t[q])
    requires !(Occupied(t[|t| - 1]) && p + 1 < |t| - 1 && forall q :: 0 <= q <= p + 1 ==> Occupied(t[q]))
    ensures var u := Placed(t, BadHomes(t, p)); Reachable(u) && !Reachable(RemoveAt(u, p))
  {
    var homes := BadHomes(t, p);
    var u := Placed(t, homes);
    forall q | p <= q < |u| ensures Occupied(u[q]) {}
    if Occupied(t[1]) {
      assert homes[0] == p && homes[1] == |u| - 1 && forall q :: 2 <= q < |u| ==> homes[q] == q;
      AboveReachable(u, p);
      CutsOffSecond(u, p);
    } else {
      assert forall q :: 0 <= q < |u| ==> homes[q] == q;
      CutsOffFirst(u, p);
    }
  }

  lemma AboveReachable(u: Table, p: nat)
    requires 1 < p < |u| && Occupied(u[0]) && forall q :: p <= q < |u| ==> Occupied(u[q])
    requires Home(u[0].hash, |u|) == p && Home(u[1].hash, |u|) == |u| - 1
    requires forall q :: 2 <= q < |u| && Occupied(u[q]) ==> Home(u[q].hash, |u|) == q
    ensures Reachable(u)
  {
  }

  /** The table of the repository's own test just before "a" is removed; "e" is at home in bucket 7. */
  function TestTable(a: Pointer, b: Pointer, c: Pointer, e: Pointer, vb: Pointer, vc: Pointer, ve: Pointer): Table {
    [Bucket(3251651376, a, NULL), Bucket(105567279, e, ve), EMPTY, EMPTY,
     Bucket(3531649220, b, vb), EMPTY, EMPTY, Bucket(552285127, c, vc)]
  }

  lemma TestHomes()
    ensures Home(3251651376, 8) == 0 && Home(105567279, 8) == 7 && Home(3531649220, 8) == 4 && Home(552285127, 8) == 7
  {
    assert 3251651376 % 8 == 0 && 105567279 % 8 == 7 && 3531649220 % 8 == 4 && 552285127 % 8 == 7;
  }

  /** The table is as it should be; removing "a" leaves the layout the test expects, with "e" stranded in bucket 1 behind a gap. */
  lemma TestStrandsEntry(a: Pointer, b: Pointer, c: Pointer, e: Pointer, vb: Pointer, vc: Pointer, ve: Pointer)
    ensures var t := TestTable(a, b, c, e, vb, vc, ve);
      Reachable(t) && Crosses(t, 0) && RemoveAt(t, 0) == t[0 := EMPTY] && !Reachable(RemoveAt(t, 0))
  {
    var t := TestTable(a, b, c, e, vb, vc, ve);
    var s := Opened(t, 0);
    var s1 := s.Advance();
    TestHomes();
    assert s1.t == s.t && !Occupied(s1.t[2]);
    assert Refill(s, 8) == Refill(s1, 7) == s.t;
    assert Steps(7, 0, 8) < Steps(7, 1, 8);
  }

  /** If the keys are distinct and hash as in the test, "e" is still mapped, and no lookup finds it. */
  lemma TestMissesEntry(k: Keys, a: Pointer, b: Pointer, c: Pointer, e: Pointer, vb: Pointer, vc: Pointer, ve: Pointer)
    requires Sound(k, TestTable(a, b, c, e, vb, vc, ve))
    ensures var u := RemoveAt(TestTable(a, b, c, e, vb, vc, ve), 0);
      Sound(k, u) && k.id(e) in Entries(k, u) && Entries(k, u)[k.id(e)] == Entry(e, ve) && !Found(k, u, e)
  {
    var t := TestTable(a, b, c, e, vb, vc, ve);
    TestStrandsEntry(a, b, c, e, vb, vc, ve);
    TestHomes();
    var u := t[0 := EMPTY];
    assert u[1] == Bucket(105567279, e, ve) && !Occupied(u[0]);
    EntryAt(k, u, 1);
    assert Steps(7, 0, 8) < Steps(7, 1, 8);
    StrandedAt(k, u, 1, 0);
  }
}
