/** Whole runs of a hash map: the object against a state machine on tables, and the state machine against finite maps. */
module HashMapRuns {
  import opened Machine
  import opened HashTable
  import opened LoadFactor
  import opened HashMap

  /** A call, with the answers the allocator would give during it. */
  datatype Op =
    | Insert(key: Pointer, value: Pointer, reallocOk: bool, callocOk: bool)
    | Update(key: Pointer, value: Pointer)
    | Find(key: Pointer)
    | Remove(key: Pointer)
    | Clear
    | Resize(nelem: SizeT, reallocOk: bool, callocOk: bool)
    | SetPolicy(policy: Policy)
    | Configure(minNum: uint16, minDen: uint16, maxNum: uint16, maxDen: uint16)

  /** What a call returns. A call outside the runs considered is passed over. */
  datatype Answer = Returned(status: Status) | Replaced(found: bool) | Value(value: Pointer) | Was(policy: Policy) | PassedOver

  datatype State = State(t: Table, policy: Policy, load: Load)

  // ----- the state machine: a function of the state, the call and the allocator's answers

  ghost function BucketOf(c: Keys, key: Pointer, value: Pointer): Bucket {
    Bucket(c.hash(c.id(key)), key, value)
  }

  ghost function DecisionIn(s: State): Decision
    requires Accepted(s.load)
  {
    Decide(s.load, s.policy, |s.t|, Count(s.t))
  }

  /** An insertion now would make a request that wraps. */
  ghost predicate Wraps(c: Keys, s: State, key: Pointer)
    requires Accepted(s.load)
  {
    c.hash(c.id(key)) != INVALID_HASH && DecisionIn(s).Grow? && !Fits(s.load, Count(s.t))
  }

  /** vsc_hashmap_configure takes the fractions. */
  predicate Takes(op: Op) {
    op.Configure? && Accepted(Load(op.minNum, op.minDen, op.maxNum, op.maxDen))
  }

  /** Removing the key is right: it is absent, or the occupied run around it does not go over the end of the array. */
  ghost predicate Removable(c: Keys, t: Table, key: Pointer) {
    var at := IndexOf(c, t, key);
    at.Some? ==> !BackShift.Crosses(t, at.value)
  }

  ghost function ValueAt(c: Keys, t: Table, key: Pointer): Pointer {
    var at := IndexOf(c, t, key);
    if at.Some? then t[at.value].value else NULL
  }

  ghost function AnswerTo(c: Keys, s: State, op: Op): Answer
    requires Accepted(s.load)
  {
    match op
    case Insert(key, value, reallocOk, callocOk) =>
      if Wraps(c, s, key) then PassedOver
      else Returned(InsertStatus(DecisionIn(s), c.hash(c.id(key)), IndexOf(c, s.t, key).None?, Count(s.t), |s.t|, reallocOk, callocOk))
    case Update(key, _) => Replaced(IndexOf(c, s.t, key).Some?)
    case Find(key) => Value(ValueAt(c, s.t, key))
    case Remove(key) => if Removable(c, s.t, key) then Value(ValueAt(c, s.t, key)) else PassedOver
    case Clear => Returned(Ok)
    case Resize(nelem, reallocOk, callocOk) =>
      if nelem < |s.t| then PassedOver else Returned(ResizeOutcome(Count(s.t), nelem, reallocOk, callocOk))
    case SetPolicy(_) => Was(s.policy)
    case Configure(_, _, _, _) => Returned(if Takes(op) then Ok else EINVAL)
  }

  ghost function TableAfter(c: Keys, s: State, op: Op): Table
    requires Accepted(s.load)
  {
    match op
    case Insert(key, value, _, _) =>
      if Wraps(c, s, key) then s.t
      else Inserted(c, s.t, DecisionIn(s), BucketOf(c, key, value), AnswerTo(c, s, op).status)
    case Update(key, value) => Revalue(c, s.t, key, value)
    case Find(_) => s.t
    case Remove(key) =>
      var at := IndexOf(c, s.t, key);
      if at.Some? && Removable(c, s.t, key) then BackShift.RemoveAt(s.t, at.value) else s.t
    case Clear => Empties(|s.t|)
    case Resize(nelem, _, _) =>
      if AnswerTo(c, s, op) == Returned(Ok) && nelem != Count(s.t) then ResizedTable(c, s.t, nelem) else s.t
    case SetPolicy(_) => s.t
    case Configure(_, _, _, _) => s.t
  }

  ghost function NextState(c: Keys, s: State, op: Op): (s': State)
    requires Accepted(s.load)
    ensures Accepted(s'.load)
  {
    State(TableAfter(c, s, op), if op.SetPolicy? then op.policy else s.policy,
          if Takes(op) then Load(op.minNum, op.minDen, op.maxNum, op.maxDen) else s.load)
  }

  ghost function FinalState(c: Keys, s: State, ops: seq<Op>): (s': State)
    requires Accepted(s.load)
    ensures Accepted(s'.load)
  {
    if ops == [] then s else NextState(c, FinalState(c, s, ops[..|ops| - 1]), ops[|ops| - 1])
  }

  ghost function Answers(c: Keys, s: State, ops: seq<Op>): (r: seq<Answer>)
    requires Accepted(s.load)
    ensures |r| == |ops|
  {
    if ops == [] then []
    else Answers(c, s, ops[..|ops| - 1]) + [AnswerTo(c, FinalState(c, s, ops[..|ops| - 1]), ops[|ops| - 1])]
  }

  // ----- the state machine against finite maps

  ghost predicate WellFormed(c: Keys, s: State) {
    Accepted(s.load) && Sound(c, s.t) && Reachable(s.t) && |s.t| < MAX_BUCKETS
  }

  /** What a call does to a finite map, given what it returned. */
  ghost function Effect(c: Keys, m: Model, op: Op, answer: Answer): Model {
    match op
    case Insert(key, value, _, _) => if answer == Returned(Ok) then m[c.id(key) := Entry(key, value)] else m
    case Update(key, value) => if c.id(key) in m then m[c.id(key) := Entry(m[c.id(key)].key, value)] else m
    case Find(_) => m
    case Remove(key) => if answer.PassedOver? then m else m - {c.id(key)}
    case Clear => map[]
    case Resize(_, _, _) => m
    case SetPolicy(_) => m
    case Configure(_, _, _, _) => m
  }

  ghost function Effects(c: Keys, m: Model, ops: seq<Op>, answers: seq<Answer>): Model
    requires |ops| == |answers|
  {
    if ops == [] then m
    else Effect(c, Effects(c, m, ops[..|ops| - 1], answers[..|ops| - 1]), ops[|ops| - 1], answers[|ops| - 1])
  }

  ghost function Stored(c: Keys, m: Model, key: Pointer): Pointer {
    if c.id(key) in m then m[c.id(key)].value else NULL
  }

  /** What a call may return, in terms of the map. */
  ghost predicate Fitting(c: Keys, m: Model, s: State, op: Op, answer: Answer)
    requires Accepted(s.load)
  {
    match op
    case Insert(key, value, reallocOk, callocOk) =>
      answer == if Wraps(c, s, key) then PassedOver
        else Returned(InsertStatus(Decide(s.load, s.policy, |s.t|, |m|), c.hash(c.id(key)), c.id(key) !in m, |m|, |s.t|, reallocOk, callocOk))
    case Update(key, _) => answer == Replaced(c.id(key) in m)
    case Find(key) => answer == Value(Stored(c, m, key))
    case Remove(key) =>
      (c.id(key) !in m ==> answer == Value(NULL)) && (answer.PassedOver? || answer == Value(Stored(c, m, key)))
    case Clear => true
    case Resize(nelem, reallocOk, callocOk) =>
      answer == if nelem < |s.t| then PassedOver else Returned(ResizeOutcome(|m|, nelem, reallocOk, callocOk))
    case SetPolicy(_) => answer == Was(s.policy)
    case Configure(_, _, _, _) => answer == Returned(if Takes(op) then Ok else EINVAL)
  }

  lemma ValueIsStored(c: Keys, t: Table, key: Pointer)
    requires Sound(c, t)
    ensures ValueAt(c, t, key) == Stored(c, Entries(c, t), key)
    ensures IndexOf(c, t, key).Some? <==> c.id(key) in Entries(c, t)
  {
    IndexMapped(c, t, key);
    if IndexOf(c, t, key).Some? {
      EntryAt(c, t, IndexOf(c, t, key).value);
    }
  }

  lemma AnswerMeaning(c: Keys, s: State, op: Op)
    requires WellFormed(c, s)
    ensures Fitting(c, Entries(c, s.t), s, op, AnswerTo(c, s, op))
  {
    EntriesSize(c, s.t);
    match op
    case Insert(key, _, _, _) => ValueIsStored(c, s.t, key);
    case Update(key, _) => ValueIsStored(c, s.t, key);
    case Find(key) => ValueIsStored(c, s.t, key);
    case Remove(key) => ValueIsStored(c, s.t, key);
    case Clear =>
    case Resize(_, _, _) =>
    case SetPolicy(_) =>
    case Configure(_, _, _, _) =>
  }

  lemma InsertStep(c: Keys, s: State, op: Op)
    requires WellFormed(c, s) && op.Insert?
    ensures WellFormed(c, NextState(c, s, op))
    ensures Entries(c, TableAfter(c, s, op)) == Effect(c, Entries(c, s.t), op, AnswerTo(c, s, op))
  {
    if !Wraps(c, s, op.key) {
      var d, b, r := DecisionIn(s), BucketOf(c, op.key, op.value), AnswerTo(c, s, op).status;
      CountFull(s.t);
      DecideSound(s.load, s.policy, |s.t|, Count(s.t));
      IndexMapped(c, s.t, op.key);
      if r == Ok {
        GrowingInsertMeaning(c, s.t, d, b, r);
      }
    }
  }

  lemma UpdateStep(c: Keys, t: Table, key: Pointer, value: Pointer)
    requires Sound(c, t) && Reachable(t)
    ensures var u, m := Revalue(c, t, key, value), Entries(c, t);
      Sound(c, u) && Reachable(u)
      && Entries(c, u) == if c.id(key) in m then m[c.id(key) := Entry(m[c.id(key)].key, value)] else m
  {
    IndexMapped(c, t, key);
    var at := IndexOf(c, t, key);
    if at.Some? {
      EntryAt(c, t, at.value);
      UpdateKeeps(c, t, at.value, t[at.value].(value := value));
    }
  }

  lemma RemoveStep(c: Keys, t: Table, key: Pointer, at: nat)
    requires Sound(c, t) && Reachable(t) && at < |t| && Matches(c, key, t[at]) && !BackShift.Crosses(t, at)
    ensures var u := BackShift.RemoveAt(t, at);
      Sound(c, u) && Reachable(u) && Entries(c, u) == Entries(c, t) - {c.id(key)}
  {
    RemoveMeaning(c, t, at);
  }

  lemma ResizeStep(c: Keys, t: Table, nelem: nat)
    requires Sound(c, t) && |t| <= nelem && Count(t) < nelem
    ensures var u := ResizedTable(c, t, nelem);
      Sound(c, u) && Reachable(u) && |u| == nelem && Entries(c, u) == Entries(c, t)
  {
    ResizedTableWorks(c, t, nelem);
    ResizedMeaning(c, t, nelem, ResizedTable(c, t, nelem));
  }

  lemma RemoveNext(c: Keys, s: State, op: Op)
    requires WellFormed(c, s) && op.Remove?
    ensures WellFormed(c, NextState(c, s, op))
    ensures Entries(c, NextState(c, s, op).t) == Effect(c, Entries(c, s.t), op, AnswerTo(c, s, op))
  {
    IndexMapped(c, s.t, op.key);
    var at := IndexOf(c, s.t, op.key);
    if at.Some? && Removable(c, s.t, op.key) {
      RemoveStep(c, s.t, op.key, at.value);
    }
  }

  lemma ResizeNext(c: Keys, s: State, op: Op)
    requires WellFormed(c, s) && op.Resize?
    ensures WellFormed(c, NextState(c, s, op))
    ensures Entries(c, NextState(c, s, op).t) == Effect(c, Entries(c, s.t), op, AnswerTo(c, s, op))
  {
    CountFull(s.t);
    if AnswerTo(c, s, op) == Returned(Ok) && op.nelem != Count(s.t) {
      ResizeStep(c, s.t, op.nelem);
    }
  }

  /** Every call keeps the table well formed and does to its map what it says. */
  lemma NextMeaning(c: Keys, s: State, op: Op)
    requires WellFormed(c, s)
    ensures WellFormed(c, NextState(c, s, op))
    ensures Entries(c, NextState(c, s, op).t) == Effect(c, Entries(c, s.t), op, AnswerTo(c, s, op))
  {
    match op
    case Insert(_, _, _, _) => InsertStep(c, s, op);
    case Update(key, value) => UpdateStep(c, s.t, key, value);
    case Find(_) =>
    case Remove(_) => RemoveNext(c, s, op);
    case Clear => EmptyTable(c, Empties(|s.t|));
    case Resize(_, _, _) => ResizeNext(c, s, op);
    case SetPolicy(_) =>
    case Configure(_, _, _, _) =>
  }

  /** Over every run the table stands for the map the calls describe. */
  lemma {:induction false} RunMeaning(c: Keys, s: State, ops: seq<Op>)
    requires WellFormed(c, s)
    ensures WellFormed(c, FinalState(c, s, ops))
    ensures Entries(c, FinalState(c, s, ops).t) == Effects(c, Entries(c, s.t), ops, Answers(c, s, ops))
    decreases |ops|
  {
    if ops != [] {
      var front := ops[..|ops| - 1];
      RunMeaning(c, s, front);
      NextMeaning(c, FinalState(c, s, front), ops[|ops| - 1]);
      assert Answers(c, s, ops)[..|ops| - 1] == Answers(c, s, front);
    }
  }

  /** Under the load-factor policy no insertion of a run reports a full table. */
  lemma {:induction false} RunNeverFull(c: Keys, s: State, ops: seq<Op>)
    requires WellFormed(c, s)
    requires s.policy == RESIZE_LOAD_FACTOR && forall op | op in ops :: !op.SetPolicy?
    ensures Returned(ENOSPC) !in Answers(c, s, ops) && FinalState(c, s, ops).policy == RESIZE_LOAD_FACTOR
    decreases |ops|
  {
    if ops != [] {
      var front, op := ops[..|ops| - 1], ops[|ops| - 1];
      assert op in ops && forall o | o in front :: o in ops;
      RunNeverFull(c, s, front);
      RunMeaning(c, s, front);
      InsertNotFull(c, FinalState(c, s, front), op);
    }
  }

  lemma InsertNotFull(c: Keys, s: State, op: Op)
    requires WellFormed(c, s) && s.policy == RESIZE_LOAD_FACTOR
    ensures AnswerTo(c, s, op) != Returned(ENOSPC)
  {
    if op.Insert? && !Wraps(c, s, op.key) {
      CountFull(s.t);
      var absent := IndexOf(c, s.t, op.key).None?;
      LoadFactorFullExact(s.load, |s.t|, Count(s.t), c.hash(c.id(op.key)), absent, op.reallocOk, op.callocOk);
      DecideSound(s.load, s.policy, |s.t|, Count(s.t));
    }
  }

  /** With fractions the guard covers, and none configured that it does not, no insertion is passed over. */
  lemma {:induction false} RunInsertsAll(c: Keys, s: State, ops: seq<Op>, i: nat)
    requires WellFormed(c, s) && Covers(s.load) && i < |ops| && ops[i].Insert?
    requires forall op | op in ops && Takes(op) :: Covers(Load(op.minNum, op.minDen, op.maxNum, op.maxDen))
    ensures !Answers(c, s, ops)[i].PassedOver?
    decreases |ops|
  {
    var front := ops[..|ops| - 1];
    assert forall op | op in front :: op in ops;
    RunCovers(c, s, front);
    if i < |ops| - 1 {
      RunInsertsAll(c, s, front, i);
    }
  }

  lemma {:induction false} RunCovers(c: Keys, s: State, ops: seq<Op>)
    requires Accepted(s.load) && Covers(s.load)
    requires forall op | op in ops && Takes(op) :: Covers(Load(op.minNum, op.minDen, op.maxNum, op.maxDen))
    ensures Covers(FinalState(c, s, ops).load)
    decreases |ops|
  {
    if ops != [] {
      var front := ops[..|ops| - 1];
      assert ops[|ops| - 1] in ops && forall op | op in front :: op in ops;
      RunCovers(c, s, front);
    }
  }

  // ----- growth from the start

  /** Insertions of keys that are all different, whose allocations succeed. */
  ghost predicate FreshKeys(c: Keys, ops: seq<Op>) {
    && (forall op | op in ops :: op.Insert? && op.reallocOk && op.callocOk && c.hash(c.id(op.key)) != INVALID_HASH)
    && (forall i, j | 0 <= i < j < |ops| :: c.id(ops[i].key) != c.id(ops[j].key))
  }

  /** The state of a new map. */
  const NEW_STATE: State := State([], RESIZE_LOAD_FACTOR, Load(1, 2, 3, 4))

  /** n entries in 16 buckets from the first on, and in 26 from the thirteenth. */
  ghost predicate Grown(c: Keys, s: State, n: nat) {
    && WellFormed(c, s) && s.policy == RESIZE_LOAD_FACTOR && s.load == Load(1, 2, 3, 4) && Count(s.t) == n
    && |s.t| == if n == 0 then 0 else if n <= 12 then 16 else 26
  }

  lemma GrownOn(c: Keys, s: State, op: Op, n: nat)
    requires Grown(c, s, n) && n <= 12 && FreshKeys(c, [op]) && c.id(op.key) !in Entries(c, s.t)
    ensures Grown(c, NextState(c, s, op), n + 1) && AnswerTo(c, s, op) == Returned(Ok)
    ensures Entries(c, NextState(c, s, op).t) == Entries(c, s.t)[c.id(op.key) := Entry(op.key, op.value)]
  {
    assert op in [op];
    DefaultGrowth(|s.t|, n);
    IndexMapped(c, s.t, op.key);
    NextMeaning(c, s, op);
    EntriesSize(c, s.t);
    EntriesSize(c, NextState(c, s, op).t);
  }

  lemma FreshFront(c: Keys, ops: seq<Op>)
    requires FreshKeys(c, ops) && ops != []
    ensures var front, op := ops[..|ops| - 1], ops[|ops| - 1];
      FreshKeys(c, front) && FreshKeys(c, [op]) && (forall o | o in front :: c.id(o.key) != c.id(op.key))
      && (set o | o in ops :: c.id(o.key)) == (set o | o in front :: c.id(o.key)) + {c.id(op.key)}
  {
    var front, op := ops[..|ops| - 1], ops[|ops| - 1];
    assert ops == front + [op];
    assert op in ops && forall o | o in front :: o in ops;
  }

  /** A new map has 16 buckets after its first insertion, and keeps them until the thirteenth key makes them 26. */
  lemma {:induction false} FirstGrowth(c: Keys, ops: seq<Op>)
    requires FreshKeys(c, ops) && |ops| <= 13
    ensures Grown(c, FinalState(c, NEW_STATE, ops), |ops|)
    ensures Entries(c, FinalState(c, NEW_STATE, ops).t).Keys == set op | op in ops :: c.id(op.key)
    decreases |ops|
  {
    if ops == [] {
      EmptyTable(c, []);
    } else {
      FreshFront(c, ops);
      FirstGrowth(c, ops[..|ops| - 1]);
      GrownOn(c, FinalState(c, NEW_STATE, ops[..|ops| - 1]), ops[|ops| - 1], |ops| - 1);
    }
  }

  // ----- the object against the state machine

  ghost function StateOf(hm: VscHashMap): State
    reads hm, hm.buckets
    requires hm.numBuckets <= hm.buckets.Length
  {
    State(hm.T(), hm.policy, hm.load)
  }

  /** vsc_hashmap_remove, when it is right. */
  method RemoveIfRight(hm: VscHashMap, key: Pointer) returns (answer: Answer)
    requires hm.Valid()
    modifies hm, hm.buckets
    ensures hm.Valid() && hm.load == old(hm.load) && hm.policy == old(hm.policy) && hm.buckets == old(hm.buckets)
    ensures answer == AnswerTo(hm.keys, old(StateOf(hm)), Remove(key))
    ensures hm.T() == TableAfter(hm.keys, old(StateOf(hm)), Remove(key))
  {
    ghost var t := hm.T();
    ValueIsStored(hm.keys, t, key);
    var found := hm.FindBucket(key);
    if found.Some? {
      IndexIs(hm.keys, t, key, found.value);
      if BackShift.Crosses(hm.buckets[..hm.numBuckets], found.value) {
        return PassedOver;
      }
    }
    var value, at := hm.Remove(key);
    if found.Some? {
      IndexIs(hm.keys, t, key, at);
    }
    answer := Value(value);
  }

  /** vsc_hashmap_insert, when its request does not wrap. */
  method InsertIfRight(hm: VscHashMap, key: Pointer, value: Pointer, reallocOk: bool, callocOk: bool) returns (answer: Answer)
    requires hm.Valid()
    modifies hm, hm.buckets
    ensures hm.Valid() && hm.load == old(hm.load) && hm.policy == old(hm.policy) && (hm.buckets == old(hm.buckets) || fresh(hm.buckets))
    ensures answer == AnswerTo(hm.keys, old(StateOf(hm)), Insert(key, value, reallocOk, callocOk))
    ensures hm.T() == TableAfter(hm.keys, old(StateOf(hm)), Insert(key, value, reallocOk, callocOk))
  {
    if hm.procs.hash(key) != INVALID_HASH && Decide(hm.load, hm.policy, hm.numBuckets, hm.size).Grow? && !Fits(hm.load, hm.size) {
      return PassedOver;
    }
    answer := InsertNow(hm, key, value, reallocOk, callocOk);
  }

  method InsertNow(hm: VscHashMap, key: Pointer, value: Pointer, reallocOk: bool, callocOk: bool) returns (answer: Answer)
    requires hm.Valid() && !Wraps(hm.keys, StateOf(hm), key)
    modifies hm, hm.buckets
    ensures hm.Valid() && hm.load == old(hm.load) && hm.policy == old(hm.policy) && (hm.buckets == old(hm.buckets) || fresh(hm.buckets))
    ensures answer == AnswerTo(hm.keys, old(StateOf(hm)), Insert(key, value, reallocOk, callocOk))
    ensures hm.T() == TableAfter(hm.keys, old(StateOf(hm)), Insert(key, value, reallocOk, callocOk))
  {
    IndexMapped(hm.keys, hm.T(), key);
    CountFull(hm.T());
    DecideSound(hm.load, hm.policy, hm.numBuckets, hm.size);
    var status := hm.Insert(key, value, reallocOk, callocOk);
    answer := Returned(status);
  }

  /** vsc_hashmap_resize, when it does not shrink the bucket array. */
  method ResizeIfGrowing(hm: VscHashMap, nelem: SizeT, reallocOk: bool, callocOk: bool) returns (answer: Answer)
    requires hm.Valid()
    modifies hm, hm.buckets
    ensures hm.Valid() && hm.load == old(hm.load) && hm.policy == old(hm.policy) && (hm.buckets == old(hm.buckets) || fresh(hm.buckets))
    ensures answer == AnswerTo(hm.keys, old(StateOf(hm)), Resize(nelem, reallocOk, callocOk))
    ensures hm.T() == TableAfter(hm.keys, old(StateOf(hm)), Resize(nelem, reallocOk, callocOk))
  {
    if nelem < hm.numBuckets {
      return PassedOver;
    }
    var status := hm.Resize(nelem, reallocOk, callocOk);
    answer := Returned(status);
  }

  /**
   * One call. An insertion whose request wraps, a resize that would shrink the bucket array and a removal that is not
   * right are passed over.
   */
  method Step(hm: VscHashMap, op: Op) returns (answer: Answer)
    requires hm.Valid()
    modifies hm, hm.buckets
    ensures hm.Valid() && (hm.buckets == old(hm.buckets) || fresh(hm.buckets))
    ensures answer == AnswerTo(hm.keys, old(StateOf(hm)), op)
    ensures StateOf(hm) == NextState(hm.keys, old(StateOf(hm)), op)
  {
    match op
    case Insert(key, value, reallocOk, callocOk) =>
      answer := InsertIfRight(hm, key, value, reallocOk, callocOk);
    case Update(key, value) =>
      IndexMapped(hm.keys, hm.T(), key);
      var r := hm.Update(key, value);
      answer := Replaced(r == 0);
    case Find(key) =>
      ValueIsStored(hm.keys, hm.T(), key);
      var v := hm.Find(key);
      answer := Value(v);
    case Remove(key) =>
      answer := RemoveIfRight(hm, key);
    case Clear =>
      hm.Clear();
      answer := Returned(Ok);
    case Resize(nelem, reallocOk, callocOk) =>
      answer := ResizeIfGrowing(hm, nelem, reallocOk, callocOk);
    case SetPolicy(policy) =>
      var was := hm.SetPolicy(policy);
      answer := Was(was);
    case Configure(minNum, minDen, maxNum, maxDen) =>
      var status := hm.Configure(minNum, minDen, maxNum, maxDen);
      answer := Returned(status);
  }

  /** Over every run the object goes through the states and gives the answers of the state machine. */
  method Run(hm: VscHashMap, ops: seq<Op>) returns (answers: seq<Answer>)
    requires hm.Valid()
    modifies hm, hm.buckets
    ensures hm.Valid() && hm.size == |hm.M()|
    ensures StateOf(hm) == FinalState(hm.keys, old(StateOf(hm)), ops)
    ensures answers == Answers(hm.keys, old(StateOf(hm)), ops)
    ensures hm.M() == Effects(hm.keys, old(hm.M()), ops, answers)
  {
    answers := [];
    ghost var s := StateOf(hm);
    for i := 0 to |ops|
      invariant hm.Valid() && (hm.buckets == old(hm.buckets) || fresh(hm.buckets))
      invariant StateOf(hm) == FinalState(hm.keys, s, ops[..i])
      invariant answers == Answers(hm.keys, s, ops[..i])
    {
      var answer := Step(hm, ops[i]);
      assert ops[..i + 1][..i] == ops[..i];
      answers := answers + [answer];
    }
    assert ops[..|ops|] == ops;
    RunMeaning(hm.keys, s, ops);
    hm.SizeIsCardinality();
  }
}
