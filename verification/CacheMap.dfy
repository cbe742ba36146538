/** The cache of nsd/cache.c refines a map from keys to values, some of them uncommitted. */
module CacheMap {
  import opened Prelude
  import opened Tallies
  import opened CacheSpec
  import opened CacheLaws
  import opened CacheRuns

  /** What the map holds under a key: a value for everybody, or one of an open transaction. */
  datatype Cell =
    | Public(value: Value, size: nat, expires: Time)
    | Draft(epoch: nat, value: Value, size: nat, expires: Time)

  type Simple = map<Key, Cell>

  function At(m: Simple, k: Key): Option<Cell> {
    if k in m then Some(m[k]) else None
  }

  /** What a call stores: the value with its size, and an expiry time if it has one. */
  function NewCell(op: Op): Cell
    requires op.OpSet?
  {
    var expires := if op.timeout.Some? then op.timeout.value else Time(0, 0);
    if op.epoch == 0 then Public(op.v, op.size, expires) else Draft(op.epoch, op.v, op.size, expires)
  }

  function Publish(x: Cell): Cell {
    Public(x.value, x.size, x.expires)
  }

  /** What a call does to the map. */
  function MapStep(m: Simple, op: Op): Simple {
    match op
    case OpSet(k, _, _, _, _, _) => m[k := NewCell(op)]
    case OpUnset(k) => m - {k}
    case OpDelete(k) => m - {k}
    case OpFlush => map k | k in m && m[k].Draft? :: m[k]
    case OpCommit(epoch) => map k | k in m :: if m[k].Draft? && m[k].epoch == epoch then Publish(m[k]) else m[k]
    case OpRollback(epoch) => map k | k in m && !(m[k].Draft? && m[k].epoch == epoch) :: m[k]
    case _ => m
  }

  /** What a caller with the given transaction stack finds under a key. */
  function Lookup(m: Simple, k: Key, stack: seq<nat>): Option<Value> {
    match At(m, k)
    case None => None
    case Some(Public(v, _, _)) => Some(v)
    case Some(Draft(epoch, v, _, _)) => if epoch in stack then Some(v) else None
  }

  /** An expiry time with seconds that lies before `now`. */
  predicate Past(t: Time, now: Time) {
    t.sec > 0 && (t.sec < now.sec || (t.sec == now.sec && t.usec < now.usec))
  }

  /** For times in the normal form this is the order of their microseconds. */
  lemma PastIsEarlier(t: Time, now: Time)
    requires 0 <= t.usec < 1_000_000 && 0 <= now.usec < 1_000_000
    ensures Past(t, now) <==> t.sec > 0 && t.sec * 1_000_000 + t.usec < now.sec * 1_000_000 + now.usec
  {
  }

  // ----- which keys have to go

  /** The bytes that some keys are charged for: a fixed amount each, their names, and their values. */
  function Charge(overhead: nat, m: Simple, ks: seq<Key>): int {
    if ks == [] then 0
    else overhead + |ks[0].name| + (if ks[0] in m then m[ks[0]].size else 0) + Charge(overhead, m, ks[1..])
  }

  /** With `n` keys left, the last of them has to go to make room for `k`. */
  predicate MustGo(overhead: nat, m: Simple, ks: seq<Key>, k: Key, limit: nat, n: nat)
    requires n <= |ks|
  {
    && 0 < limit < Charge(overhead, m, ks[..n])
    && n > 0 && ks[n - 1] != k && ks[n - 1] in m && m[ks[n - 1]].Public?
  }

  /** How many of the first `n` keys stay. */
  function Stay(overhead: nat, m: Simple, ks: seq<Key>, k: Key, limit: nat, n: nat): (r: nat)
    requires n <= |ks|
    ensures r <= n
  {
    if MustGo(overhead, m, ks, k, limit, n) then Stay(overhead, m, ks, k, limit, n - 1) else n
  }

  /** The limit that a call with its own limit leaves. */
  function LimitAfter(op: Op, limit: nat): nat {
    match op
    case OpSet(_, _, _, _, maxSize, _) => if maxSize == 0 then limit else maxSize
    case OpSetMaxSize(l) => l
    case _ => limit
  }

  // ----- the cache as such a map

  function CellOf(e: Entry): Option<Cell> {
    if e.value.Some? then Some(Public(e.value.value, e.size, e.expires))
    else if e.uncommitted.Some? then Some(Draft(e.epoch, e.uncommitted.value, e.size, e.expires))
    else None
  }

  function CellAt(c: Cache, k: Key): Option<Cell> {
    if k in c.entries then CellOf(c.entries[k]) else None
  }

  ghost function Abs(c: Cache): Simple {
    map k | k in c.entries && CellOf(c.entries[k]).Some? :: CellOf(c.entries[k]).value
  }

  lemma AbsAt(c: Cache, k: Key)
    ensures At(Abs(c), k) == CellAt(c, k)
  {
  }

  /**
   * The keys that a call gives up on its own account, told from the map and the recency list:
   * those that have expired, and those at the end of the list that a set leaves no room for.
   */
  ghost function Evicted(c: Cache, op: Op): set<Key> {
    var m := Abs(c);
    match op
    case OpFind(k, stack, now) =>
      if k in m && Past(m[k].expires, now) && (m[k].Public? || stack != []) then {k} else {}
    case OpCreate(k, now) => if k in m && Past(m[k].expires, now) then {k} else {}
    case OpWalk(stack, now) => set k | k in m && Lookup(m, k, stack).Some? && Past(m[k].expires, now)
    case OpSet(k, _, _, _, _, _) =>
      var n := Stay(c.overhead, MapStep(m, op), c.lru, k, LimitAfter(op, c.maxSize), |c.lru|);
      set x | x in c.lru[n..]
    case _ => {}
  }

  /** A call can be made: values are stored into entries that exist. */
  predicate Made(c: Cache, op: Op) {
    op.OpSet? ==> op.k in c.entries
  }

  /** One key of the map, and what a call does to it. */
  function CellStep(x: Option<Cell>, op: Op, k: Key): Option<Cell> {
    match op
    case OpSet(k', _, _, _, _, _) => if k' == k then Some(NewCell(op)) else x
    case OpUnset(k') => if k' == k then None else x
    case OpDelete(k') => if k' == k then None else x
    case OpFlush => if x.Some? && x.value.Draft? then x else None
    case OpCommit(epoch) =>
      if x.Some? && x.value.Draft? && x.value.epoch == epoch then Some(Publish(x.value)) else x
    case OpRollback(epoch) => if x.Some? && x.value.Draft? && x.value.epoch == epoch then None else x
    case _ => x
  }

  lemma MapStepAt(m: Simple, op: Op, k: Key)
    ensures At(MapStep(m, op), k) == CellStep(At(m, k), op, k)
  {
  }

  /** The cache of a set before it is pruned. */
  ghost function Unpruned(c: Cache, op: Op): Cache
    requires op.OpSet? && op.k in c.entries
  {
    Store(Unset(c, op.k), op.k, op.v, op.size, op.timeout, op.epoch).(maxSize := LimitAfter(op, c.maxSize))
  }

  lemma StoredCell(c: Cache, op: Op, k: Key)
    requires Wf(c) && op.OpSet? && op.k in c.entries
    ensures CellAt(Unpruned(c, op), k) == CellStep(CellAt(c, k), op, k)
  {
    hide Total, Weights, Union, Drop, NoDup;
    assert EntryOk(c, op.k);
  }

  lemma StoredWf(c: Cache, op: Op)
    requires Wf(c) && op.OpSet? && op.k in c.entries
    ensures Wf(Unpruned(c, op)) && Unpruned(c, op).lru == c.lru && Unpruned(c, op).overhead == c.overhead
  {
    hide Wf, Total, Weights;
    UnsetWf(c, op.k);
    StoreWf(Unset(c, op.k), op.k, op.v, op.size, op.timeout, op.epoch);
    MaxSizeWf(Store(Unset(c, op.k), op.k, op.v, op.size, op.timeout, op.epoch), LimitAfter(op, c.maxSize));
  }

  lemma SetIsStoredAndPruned(c: Cache, op: Op)
    requires op.OpSet? && op.k in c.entries
    ensures Step(c, op) == Prune(Unpruned(c, op), op.k, LimitAfter(op, c.maxSize))
  {
    hide Unset, Store, Prune;
  }

  /** What the list is charged for is what the map says. */
  lemma {:induction false} ChargeIsTotal(c: Cache, ks: seq<Key>)
    requires Wf(c) && forall k :: k in ks ==> k in c.entries
    ensures Charge(c.overhead, Abs(c), ks) == Total(Weights(c.overhead, c.entries), ks)
  {
    hide NoDup;
    if ks != [] {
      ChargeIsTotal(c, ks[1..]);
      assert EntryOk(c, ks[0]);
      AbsAt(c, ks[0]);
    }
  }

  lemma MustGoIsMustPrune(c: Cache, k: Key, limit: nat, n: nat)
    requires Wf(c) && n <= |c.lru|
    ensures MustGo(c.overhead, Abs(c), c.lru, k, limit, n) <==> MustPrune(c, k, limit, n)
  {
    hide NoDup, Total, Weights, Charge, EntryOk, Abs;
    assert forall x :: x in c.lru[..n] ==> x in c.lru;
    ChargeIsTotal(c, c.lru[..n]);
    if n > 0 {
      assert c.lru[n - 1] in c.lru;
      AbsAt(c, c.lru[n - 1]);
    }
  }

  lemma {:induction false} StayIsFit(c: Cache, k: Key, limit: nat, n: nat)
    requires Wf(c) && n <= |c.lru|
    ensures Stay(c.overhead, Abs(c), c.lru, k, limit, n) == Fit(c, k, limit, n)
  {
    hide Wf, MustPrune, MustGo, Abs;
    MustGoIsMustPrune(c, k, limit, n);
    if MustPrune(c, k, limit, n) {
      Positive(c, k, limit, n);
      StayIsFit(c, k, limit, n - 1);
    }
  }

  lemma Positive(c: Cache, k: Key, limit: nat, n: nat)
    requires n <= |c.lru| && MustPrune(c, k, limit, n)
    ensures n > 0
  {
  }

  lemma StoredAbs(c: Cache, op: Op)
    requires Wf(c) && op.OpSet? && op.k in c.entries
    ensures Abs(Unpruned(c, op)) == MapStep(Abs(c), op)
  {
    hide Abs, Wf, Unpruned, MapStep;
    forall k ensures At(Abs(Unpruned(c, op)), k) == At(MapStep(Abs(c), op), k) {
      AbsAt(c, k);
      AbsAt(Unpruned(c, op), k);
      StoredCell(c, op, k);
      MapStepAt(Abs(c), op, k);
    }
    SameMaps(Abs(Unpruned(c, op)), MapStep(Abs(c), op));
  }

  lemma SetCell(c: Cache, op: Op, k: Key)
    requires Wf(c) && op.OpSet? && op.k in c.entries
    ensures CellAt(Step(c, op), k) == if k in Evicted(c, op) then None else CellStep(CellAt(c, k), op, k)
  {
    hide Wf, Abs, Unpruned, Step, Prune, CellOf, Stay, Fit, MapStep, CellStep;
    var limit := LimitAfter(op, c.maxSize);
    StoredWf(c, op);
    StoredAbs(c, op);
    StoredCell(c, op, k);
    SetIsStoredAndPruned(c, op);
    StayIsFit(Unpruned(c, op), op.k, limit, |c.lru|);
    PruneCell(Unpruned(c, op), op.k, limit, k);
  }

  lemma PruneCell(c: Cache, k: Key, limit: nat, x: Key)
    ensures CellAt(Prune(c, k, limit), x) == if x in c.lru[Fit(c, k, limit, |c.lru|)..] then None else CellAt(c, x)
  {
    hide Total, Weights, Union, Drop, Keep, Fit, CellOf;
  }

  /** One call, at one key. */
  lemma StepCell(c: Cache, op: Op, k: Key)
    requires Wf(c) && Made(c, op)
    ensures CellAt(Step(c, op), k) == if k in Evicted(c, op) then None else CellStep(CellAt(c, k), op, k)
  {
    hide Total, NoDup, Drop, Weights, Union, Set;
    if k in c.entries {
      assert EntryOk(c, k);
    }
    match op
    case OpSet(_, _, _, _, _, _) => SetCell(c, op, k);
    case OpCreate(x, now) => CreateCell(c, op, k);
    case OpUnset(x) => if x in c.entries && k in c.entries { UnsetEvolves(c, x, k); }
    case OpCommit(epoch) => if k in c.entries { TaggedIsPending(c, epoch, k); }
    case OpRollback(epoch) => if k in c.entries { TaggedIsPending(c, epoch, k); }
    case OpFind(x, stack, now) => FindCell(c, op, k);
    case OpWalk(stack, now) => WalkCell(c, op, k);
    case _ =>
  }

  /** An entry without a value never expires. */
  lemma ExpiredIsPast(c: Cache, k: Key, now: Time)
    requires Wf(c) && k in c.entries
    ensures Expired(c.entries[k], now) <==> k in Abs(c) && Past(Abs(c)[k].expires, now)
  {
    hide Total, NoDup, Weights;
    assert EntryOk(c, k);
  }

  lemma FindCell(c: Cache, op: Op, k: Key)
    requires Wf(c) && op.OpFind?
    ensures CellAt(Step(c, op), k) == if k in Evicted(c, op) then None else CellAt(c, k)
  {
    hide Total, NoDup, Drop, Keep, Weights, Union, EntryOk, Expired, Past, Abs, CellOf;
    AbsAt(c, op.k);
    if op.k in c.entries {
      ExpiredIsPast(c, op.k, op.now);
      PublicIff(c.entries[op.k]);
    }
  }

  lemma PublicIff(e: Entry)
    ensures CellOf(e).Some? && CellOf(e).value.Public? <==> e.value.Some?
    ensures e.value.Some? || e.uncommitted.Some? <==> CellOf(e).Some?
  {
  }

  lemma WalkCell(c: Cache, op: Op, k: Key)
    requires Wf(c) && op.OpWalk?
    ensures CellAt(Step(c, op), k) == if k in Evicted(c, op) then None else CellAt(c, k)
  {
    hide Total, NoDup, Drop, Keep, Weights, Union, EntryOk, Expired, Past, Abs, CellOf, Visible, Lookup;
    AbsAt(c, k);
    if k in c.entries {
      ExpiredIsPast(c, k, op.now);
      VisibleIsLookup(c, k, op.stack);
    }
  }

  lemma CreateCell(c: Cache, op: Op, k: Key)
    requires Wf(c) && op.OpCreate?
    ensures CellAt(Step(c, op), k) == if k in Evicted(c, op) then None else CellAt(c, k)
  {
    hide Total, NoDup, Drop, Weights, Union, EntryOk, Expired, Past, Abs;
    AbsAt(c, op.k);
    if op.k in c.entries {
      ExpiredIsPast(c, op.k, op.now);
      if k in c.entries {
        UnsetEvolves(c, op.k, k);
      }
    }
  }

  /** Every call does to the map what it says, except for the keys that expire or are pruned. */
  lemma StepRefines(c: Cache, op: Op)
    requires Wf(c) && Made(c, op)
    ensures Abs(Step(c, op)) == MapStep(Abs(c), op) - Evicted(c, op)
  {
    hide Abs, MapStep, Step, Evicted, Wf;
    var m, m' := MapStep(Abs(c), op) - Evicted(c, op), Abs(Step(c, op));
    forall k ensures At(m', k) == At(m, k) {
      AbsAt(c, k);
      AbsAt(Step(c, op), k);
      MapStepAt(Abs(c), op, k);
      StepCell(c, op, k);
      MinusAt(MapStep(Abs(c), op), Evicted(c, op), k);
    }
    SameMaps(m', m);
  }

  lemma MinusAt(m: Simple, gone: set<Key>, k: Key)
    ensures At(m - gone, k) == if k in gone then None else At(m, k)
  {
  }

  lemma SameMaps(a: Simple, b: Simple)
    requires forall k :: At(a, k) == At(b, k)
    ensures a == b
  {
    forall k ensures k in a <==> k in b
      ensures k in a ==> a[k] == b[k]
    {
      assert At(a, k) == At(b, k);
    }
  }

  /** The committed values are those for everybody. */
  lemma CommittedIsPublic(c: Cache)
    ensures Committed(c) == map k | k in Abs(c) && Abs(c)[k].Public? :: Abs(c)[k].value
  {
  }

  /** What a caller sees in an entry is what the map holds for it. */
  lemma VisibleIsLookup(c: Cache, k: Key, stack: seq<nat>)
    requires k in c.entries
    ensures Visible(c.entries[k], stack) == Lookup(Abs(c), k, stack)
  {
    AbsAt(c, k);
  }

  // ----- runs

  /** The map after the same calls, when nothing expires and nothing is pruned. */
  ghost function MapRun(c: Cache, ops: seq<Op>): Simple {
    if ops == [] then Abs(c)
    else
      var before, op := ops[..|ops| - 1], ops[|ops| - 1];
      if Made(Run(c, before), op) then MapStep(MapRun(c, before), op) else MapRun(c, before)
  }

  /** All keys that a run gives up on its own account. */
  ghost function EvictedIn(c: Cache, ops: seq<Op>): set<Key> {
    if ops == [] then {}
    else EvictedIn(c, ops[..|ops| - 1]) + Evicted(Run(c, ops[..|ops| - 1]), ops[|ops| - 1])
  }

  lemma {:induction false} RunCell(c: Cache, ops: seq<Op>, k: Key)
    requires Wf(c)
    ensures CellAt(Run(c, ops), k) == At(MapRun(c, ops), k) || (CellAt(Run(c, ops), k).None? && k in EvictedIn(c, ops))
  {
    hide Step, Wf, MapStep, Evicted, CellAt, At, Made;
    if ops == [] {
      AbsAt(c, k);
    } else {
      var before, op := ops[..|ops| - 1], ops[|ops| - 1];
      RunCell(c, before, k);
      RunWf(c, before);
      var b := Run(c, before);
      if Made(b, op) {
        StepCell(b, op, k);
        MapStepAt(MapRun(c, before), op, k);
      } else {
        NotMade(b, op);
      }
    }
  }

  lemma NotMade(c: Cache, op: Op)
    requires !Made(c, op)
    ensures Step(c, op) == c
  {
  }

  /**
   * After every run the cache holds a part of what the map holds, and lacks only keys that
   * expired or were pruned on the way; so it never shows a value that was replaced,
   * unset, deleted, flushed or rolled back.
   */
  lemma RunRefinesMap(overhead: nat, maxSize: nat, ops: seq<Op>)
    ensures var c0 := Empty(overhead, maxSize); var m, a := MapRun(c0, ops), Abs(Run(c0, ops));
            && (forall k :: k in a ==> k in m && a[k] == m[k])
            && (forall k :: k in m && k !in a ==> k in EvictedIn(c0, ops))
            && (EvictedIn(c0, ops) == {} ==> a == m)
  {
    hide Run, MapRun, EvictedIn, Wf, Abs, CellAt;
    var c0 := Empty(overhead, maxSize);
    var m, a := MapRun(c0, ops), Abs(Run(c0, ops));
    EmptyWf(overhead, maxSize);
    forall k ensures At(a, k) == At(m, k) || (At(a, k).None? && k in EvictedIn(c0, ops)) {
      RunCell(c0, ops, k);
      AbsAt(Run(c0, ops), k);
    }
    forall k | k in a ensures k in m && a[k] == m[k] {
      assert At(a, k) == At(m, k) || (At(a, k).None? && k in EvictedIn(c0, ops));
    }
    forall k | k in m && k !in a ensures k in EvictedIn(c0, ops) {
      assert At(a, k) == At(m, k) || (At(a, k).None? && k in EvictedIn(c0, ops));
    }
    if EvictedIn(c0, ops) == {} {
      SameMaps(a, m);
    }
  }

  lemma EmptyWf(overhead: nat, maxSize: nat)
    ensures Wf(Empty(overhead, maxSize))
  {
  }

  /** In every run, a caller that sees a value sees the one that the map holds: the last one. */
  lemma RunReadsLast(overhead: nat, maxSize: nat, ops: seq<Op>, k: Key, stack: seq<nat>)
    requires k in Run(Empty(overhead, maxSize), ops).entries
    ensures var c0 := Empty(overhead, maxSize);
            var seen := Visible(Run(c0, ops).entries[k], stack);
            seen.Some? ==> seen == Lookup(MapRun(c0, ops), k, stack)
  {
    hide Run, MapRun, EvictedIn, Abs;
    RunRefinesMap(overhead, maxSize, ops);
    VisibleIsLookup(Run(Empty(overhead, maxSize), ops), k, stack);
  }

  // ----- what the calls answer

  /** The limit after a call. */
  lemma StepLimit(c: Cache, op: Op)
    requires Made(c, op)
    ensures Step(c, op).maxSize == LimitAfter(op, c.maxSize)
  {
    hide DeleteAll, Fit;
    if op.OpSet? {
      SetIsStoredAndPruned(c, op);
      PruneLimit(Unpruned(c, op), op.k, LimitAfter(op, c.maxSize));
    } else {
      OtherLimit(c, op);
    }
  }

  lemma PruneLimit(c: Cache, k: Key, limit: nat)
    ensures Prune(c, k, limit).maxSize == c.maxSize
  {
  }

  lemma OtherLimit(c: Cache, op: Op)
    requires !op.OpSet?
    ensures Step(c, op).maxSize == LimitAfter(op, c.maxSize)
  {
  }

  /**
   * A find succeeds if and only if the map holds a value for the caller that has not expired;
   * then the key is the most recently used one, otherwise the rest of the list stays in order.
   */
  lemma FindHitsIff(c: Cache, k: Key, stack: seq<nat>, now: Time)
    requires Wf(c)
    ensures var (c', found) := Find(c, k, stack, now); var m := Abs(c);
            && (found <==> Lookup(m, k, stack).Some? && !Past(m[k].expires, now))
            && (found ==> c'.lru == [k] + Drop(c.lru, {k}) && c'.entries == c.entries)
            && (!found ==> c'.lru == c.lru || (c'.lru == Drop(c.lru, {k}) && k in Evicted(c, OpFind(k, stack, now))))
  {
    hide Total, NoDup, Drop, Keep, Weights, Union, EntryOk, Expired, Past, Abs, CellOf, Visible, Lookup;
    AbsAt(c, k);
    LookupHeld(Abs(c), k, stack);
    if k in c.entries {
      ExpiredIsPast(c, k, now);
      VisibleIsLookup(c, k, stack);
      PublicIff(c.entries[k]);
    }
  }

  lemma LookupHeld(m: Simple, k: Key, stack: seq<nat>)
    ensures Lookup(m, k, stack).Some? ==> k in m && (m[k].Public? || stack != [])
  {
  }

  /** A create always leaves an entry in front, and reports a new one exactly if there was none or an expired one. */
  lemma CreateReportsIff(c: Cache, k: Key, now: Time)
    requires Wf(c)
    ensures var (c', isNew) := Create(c, k, now); var m := Abs(c);
            && k in c'.entries && c'.lru == [k] + Drop(c.lru, {k})
            && (isNew <==> k !in c.entries || (k in m && Past(m[k].expires, now)))
  {
    hide Total, NoDup, Drop, Keep, Weights, Union, EntryOk, Expired, Past, Abs;
    CreateOrder(c, k, now);
    if k in c.entries {
      ExpiredIsPast(c, k, now);
    }
  }

  /** An iteration meets the keys whose values the caller can see. */
  lemma SeenIff(c: Cache, k: Key, stack: seq<nat>)
    ensures k in Seen(c, stack) <==> Lookup(Abs(c), k, stack).Some?
  {
    hide Visible, Lookup, Abs, CellOf;
    AbsAt(c, k);
    LookupHeld(Abs(c), k, stack);
    if k in c.entries {
      VisibleIsLookup(c, k, stack);
    }
  }

  /**
   * In every run, a find that succeeds finds what the map of the run holds for the caller; and
   * it succeeds, unless the value has expired, for every key that was never given up.
   */
  lemma RunFinds(overhead: nat, maxSize: nat, ops: seq<Op>, k: Key, stack: seq<nat>, now: Time)
    ensures var c0 := Empty(overhead, maxSize); var m := MapRun(c0, ops);
            var found := Find(Run(c0, ops), k, stack, now).1;
            && (found ==> Lookup(m, k, stack).Some? && !Past(m[k].expires, now))
            && (k !in EvictedIn(c0, ops) && Lookup(m, k, stack).Some? && !Past(m[k].expires, now) ==> found)
  {
    hide Run, MapRun, EvictedIn, Abs, Find, Past, Wf;
    var c0 := Empty(overhead, maxSize);
    RunWfFromEmpty(overhead, maxSize, ops);
    RunRefinesMap(overhead, maxSize, ops);
    FindHitsIff(Run(c0, ops), k, stack, now);
    LookupHeld(MapRun(c0, ops), k, stack);
    LookupHeld(Abs(Run(c0, ops)), k, stack);
  }

  lemma RunWfFromEmpty(overhead: nat, maxSize: nat, ops: seq<Op>)
    ensures Wf(Run(Empty(overhead, maxSize), ops))
  {
    RunKeeps(overhead, maxSize, ops);
  }

  lemma {:induction false} StaysBehind(overhead: nat, m: Simple, ks: seq<Key>, k: Key, limit: nat, n: nat, i: nat)
    requires i < n <= |ks| && ks[i] == k
    ensures Stay(overhead, m, ks, k, limit, n) > i
  {
    hide Charge;
    if MustGo(overhead, m, ks, k, limit, n) {
      StaysBehind(overhead, m, ks, k, limit, n - 1, i);
    }
  }

  /** The key that is set is not given up: what was stored is there. */
  lemma SetKeyStays(c: Cache, op: Op)
    requires Wf(c) && op.OpSet? && op.k in c.entries
    ensures op.k !in Evicted(c, op) && At(Abs(Step(c, op)), op.k) == Some(NewCell(op))
  {
    hide EntryOk, Total, Weights, Stay, Abs, Step, MapStep;
    var i :| 0 <= i < |c.lru| && c.lru[i] == op.k;
    var limit := LimitAfter(op, c.maxSize);
    StaysBehind(c.overhead, MapStep(Abs(c), op), c.lru, op.k, limit, |c.lru|, i);
    StepCell(c, op, op.k);
    AbsAt(Step(c, op), op.k);
  }
}
