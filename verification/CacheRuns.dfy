/** Properties of whole runs of cache operations. */
module CacheRuns {
  import opened Prelude
  import opened Tallies
  import opened CacheSpec
  import opened CacheLaws

  datatype Op =
    | OpFind(k: Key, stack: seq<nat>, now: Time)
    | OpCreate(k: Key, now: Time)
    | OpSet(k: Key, v: Value, size: nat, timeout: Option<Time>, maxSize: nat, epoch: nat)
    | OpUnset(k: Key)
    | OpDelete(k: Key)
    | OpFlush
    | OpWalk(stack: seq<nat>, now: Time)
    | OpCommit(epoch: nat)
    | OpRollback(epoch: nat)
    | OpSetMaxSize(limit: nat)

  /** One call; a call on an entry that does not exist cannot be made and changes nothing. */
  function Step(c: Cache, op: Op): Cache {
    match op
    case OpFind(k, stack, now) => Find(c, k, stack, now).0
    case OpCreate(k, now) => Create(c, k, now).0
    case OpSet(k, v, size, timeout, maxSize, epoch) =>
      if k in c.entries then Set(c, k, v, size, timeout, maxSize, epoch) else c
    case OpUnset(k) => if k in c.entries then Unset(c, k) else c
    case OpDelete(k) => Delete(c, k)
    case OpFlush => Flush(c)
    case OpWalk(stack, now) => Walk(c, stack, now)
    case OpCommit(epoch) => Commit(c, epoch)
    case OpRollback(epoch) => Rollback(c, epoch)
    case OpSetMaxSize(limit) => c.(maxSize := limit)
  }

  function Run(c: Cache, ops: seq<Op>): Cache {
    if ops == [] then c
    else Step(Run(c, ops[..|ops| - 1]), ops[|ops| - 1])
  }

  // ----- the invariant and conservation of values

  /** The value a call hands over to the cache. */
  ghost function Stored(c: Cache, op: Op): Bag {
    if op.OpSet? && op.k in c.entries then multiset{op.v} else multiset{}
  }

  ghost function StoredIn(c: Cache, ops: seq<Op>): Bag {
    if ops == [] then multiset{}
    else StoredIn(c, ops[..|ops| - 1]) + Stored(Run(c, ops[..|ops| - 1]), ops[|ops| - 1])
  }

  lemma StepWf(c: Cache, op: Op)
    requires Wf(c)
    ensures Wf(Step(c, op))
  {
    hide Wf, DeleteAll, Create, Find, Set, Unset, Seen, SeenExpired, Tagged, Commit;
    match op
    case OpFind(k, stack, now) =>
      FindWf(c, k, stack, now);
    case OpCreate(k, now) =>
      CreateWf(c, k, now);
    case OpSet(k, v, size, timeout, maxSize, epoch) =>
      if k in c.entries {
        SetWf(c, k, v, size, timeout, maxSize, epoch);
      }
    case OpUnset(k) =>
      if k in c.entries {
        UnsetWf(c, k);
      }
    case OpDelete(k) =>
      DeleteWf(c, k);
    case OpFlush =>
      DeleteAllWf(c, Seen(c, []));
    case OpWalk(stack, now) =>
      DeleteAllWf(c, SeenExpired(c, stack, now));
    case OpCommit(epoch) =>
      CommitWf(c, epoch);
    case OpRollback(epoch) =>
      DeleteAllWf(c, Tagged(c, epoch));
    case OpSetMaxSize(limit) =>
      MaxSizeWf(c, limit);
  }

  lemma StepAccounts(c: Cache, op: Op)
    requires Wf(c)
    ensures Accounted(Step(c, op)) == Accounted(c) + Stored(c, op)
  {
    hide Wf, Step, Accounted, Set;
    if op.OpSet? && op.k in c.entries {
      SetWf(c, op.k, op.v, op.size, op.timeout, op.maxSize, op.epoch);
      SetStep(c, op);
    } else {
      StoresNothing(c, op);
      PlusNothing(Accounted(c));
    }
  }

  lemma PlusNothing(b: Bag)
    ensures b + multiset{} == b
  {
  }

  lemma SetStep(c: Cache, op: Op)
    requires op.OpSet? && op.k in c.entries
    ensures Step(c, op) == Set(c, op.k, op.v, op.size, op.timeout, op.maxSize, op.epoch)
  {
    hide Set;
  }

  /** A call that stores nothing neither gains nor loses a value. */
  lemma StoresNothing(c: Cache, op: Op)
    requires Wf(c) && !(op.OpSet? && op.k in c.entries)
    ensures Accounted(Step(c, op)) == Accounted(c)
  {
    hide Wf, Accounted, DeleteAll, Create, Find, Set, Unset, Seen, SeenExpired, Tagged, Commit;
    match op
    case OpFind(k, stack, now) =>
      FindWf(c, k, stack, now);
    case OpCreate(k, now) =>
      CreateWf(c, k, now);
    case OpUnset(k) =>
      if k in c.entries {
        UnsetAccounts(c, k);
      }
    case OpDelete(k) =>
      DeleteAllAccounts(c, {k});
    case OpFlush =>
      DeleteAllAccounts(c, Seen(c, []));
    case OpWalk(stack, now) =>
      DeleteAllAccounts(c, SeenExpired(c, stack, now));
    case OpCommit(epoch) =>
      CommitAccounts(c, epoch);
    case OpRollback(epoch) =>
      DeleteAllAccounts(c, Tagged(c, epoch));
    case OpSetMaxSize(limit) =>
      MaxSizeWf(c, limit);
    case OpSet(_, _, _, _, _, _) =>
  }

  /** After every run the structures agree, and each stored value is held or released exactly once. */
  lemma {:induction false} RunKeeps(overhead: nat, maxSize: nat, ops: seq<Op>)
    ensures var c0 := Empty(overhead, maxSize); var c := Run(c0, ops);
            Wf(c) && Held(c) + c.released == StoredIn(c0, ops)
  {
    hide Step, EntryOk;
    var c0 := Empty(overhead, maxSize);
    if ops != [] {
      var before := ops[..|ops| - 1];
      RunKeeps(overhead, maxSize, before);
      StepWf(Run(c0, before), ops[|ops| - 1]);
      StepAccounts(Run(c0, before), ops[|ops| - 1]);
    }
  }

  // ----- eviction

  /** Pruning keeps a prefix of the list, with its entries, and never the key being set less. */
  lemma PruneKeepsPrefix(c: Cache, k: Key, limit: nat)
    requires NoDup(c.lru) && k in c.lru
    ensures var n := Fit(c, k, limit, |c.lru|);
            Prune(c, k, limit).lru == c.lru[..n] && k in c.lru[..n]
  {
    hide Total, Weights, Union, Drop, Keep;
    var n := Fit(c, k, limit, |c.lru|);
    DropTail(c.lru, n);
    var i :| 0 <= i < |c.lru| && c.lru[i] == k;
    assert !MustPrune(c, k, limit, i + 1);
    assert c.lru[..n][i] == k;
  }

  /**
   * Pruning evicts exactly the shortest tail of the list that makes room.  The survivors
   * are the first `n` keys; every longer prefix is still over the limit and ends in an
   * evictable key; and the first `n` keys fit, or end in the entry being set or in an
   * entry without a committed value.
   */
  lemma PruneEvictsShortestTail(c: Cache, k: Key, limit: nat) returns (n: nat)
    requires Wf(c) && k in c.lru
    ensures 0 < n <= |c.lru| && Prune(c, k, limit).lru == c.lru[..n] && k in c.lru[..n]
    ensures forall j :: n < j <= |c.lru| ==>
              && 0 < limit < Total(Weights(c.overhead, c.entries), c.lru[..j])
              && c.lru[j - 1] != k && c.entries[c.lru[j - 1]].value.Some?
    ensures || limit == 0 || Total(Weights(c.overhead, c.entries), c.lru[..n]) <= limit
            || c.lru[n - 1] == k || c.entries[c.lru[n - 1]].value.None?
  {
    n := Fit(c, k, limit, |c.lru|);
    PruneKeepsPrefix(c, k, limit);
    forall j | n < j <= |c.lru|
      ensures 0 < limit < Total(Weights(c.overhead, c.entries), c.lru[..j])
      ensures c.lru[j - 1] != k && c.entries[c.lru[j - 1]].value.Some?
    {
      assert MustPrune(c, k, limit, j);
    }
    assert !MustPrune(c, k, limit, n);
  }

  // ----- recency

  /** The key a call uses: a create always, a find when it succeeds. */
  ghost function Used(c: Cache, op: Op): Option<Key> {
    if op.OpCreate? then Some(op.k)
    else if op.OpFind? && Find(c, op.k, op.stack, op.now).1 then Some(op.k)
    else None
  }

  /** The position of the last call of the run that used `k`, or -1. */
  ghost function LastUse(c: Cache, ops: seq<Op>, k: Key): int {
    if ops == [] then -1
    else if Used(Run(c, ops[..|ops| - 1]), ops[|ops| - 1]) == Some(k) then |ops| - 1
    else LastUse(c, ops[..|ops| - 1], k)
  }

  lemma {:induction false} LastUseBound(c: Cache, ops: seq<Op>, k: Key)
    ensures LastUse(c, ops, k) < |ops|
  {
    if ops != [] {
      LastUseBound(c, ops[..|ops| - 1], k);
    }
  }

  lemma LastUseStep(c: Cache, ops: seq<Op>, k: Key)
    requires ops != []
    ensures var before := ops[..|ops| - 1];
            LastUse(c, ops, k) ==
              if Used(Run(c, before), ops[|ops| - 1]) == Some(k) then |before| else LastUse(c, before, k)
  {
    hide Used, Run;
  }

  /** The list is in order of decreasing last use. */
  ghost predicate ByRecency(c: Cache, ops: seq<Op>, ks: seq<Key>) {
    forall i, j :: 0 <= i < j < |ks| ==> LastUse(c, ops, ks[i]) > LastUse(c, ops, ks[j])
  }

  lemma {:induction false} DropByRecency(c: Cache, ops: seq<Op>, ks: seq<Key>, out: set<Key>)
    requires ByRecency(c, ops, ks)
    ensures ByRecency(c, ops, Drop(ks, out))
  {
    if ks != [] {
      DropByRecency(c, ops, ks[1..], out);
      if ks[0] !in out {
        var r := Drop(ks[1..], out);
        forall j | 0 <= j < |r| ensures LastUse(c, ops, ks[0]) > LastUse(c, ops, r[j]) {
          assert r[j] in ks[1..];
        }
      }
    }
  }

  lemma SetOrder(c: Cache, op: Op) returns (out: set<Key>)
    requires op.OpSet? && op.k in c.entries
    ensures Step(c, op).lru == Drop(c.lru, out)
  {
    var limit := if op.maxSize == 0 then c.maxSize else op.maxSize;
    var c2 := Store(Unset(c, op.k), op.k, op.v, op.size, op.timeout, op.epoch).(maxSize := limit);
    out := Tail(c.lru, Fit(c2, op.k, limit, |c.lru|));
  }

  lemma CreateOrder(c: Cache, k: Key, now: Time)
    requires Wf(c)
    ensures Create(c, k, now).0.lru == [k] + Drop(c.lru, {k})
  {
    hide NoDup, EntryOk, Total;
    if k !in c.entries {
      DropNothing(c.lru, {k});
    }
  }

  lemma FindOrder(c: Cache, k: Key, stack: seq<nat>, now: Time)
    requires Wf(c)
    ensures var (c', found) := Find(c, k, stack, now);
            if found then c'.lru == [k] + Drop(c.lru, {k}) else c'.lru == c.lru || c'.lru == Drop(c.lru, {k})
  {
    hide NoDup, EntryOk, Total;
  }

  /** A call moves the key it uses to the front, or only takes keys out of the list. */
  lemma StepOrder(c: Cache, op: Op) returns (out: set<Key>)
    requires Wf(c)
    ensures Used(c, op).Some? ==> Step(c, op).lru == [Used(c, op).value] + Drop(c.lru, {Used(c, op).value})
    ensures Used(c, op).None? ==> Step(c, op).lru == Drop(c.lru, out)
  {
    hide NoDup, EntryOk, Total, Seen, SeenExpired, Tagged, Set, Find, Create;
    out := {};
    DropNothing(c.lru, {});
    match op
    case OpFind(k, stack, now) =>
      FindOrder(c, k, stack, now);
      out := if Step(c, op).lru == c.lru then {} else {k};
    case OpCreate(k, now) =>
      CreateOrder(c, k, now);
    case OpSet(k, v, size, timeout, maxSize, epoch) =>
      if k in c.entries {
        out := SetOrder(c, op);
      }
    case OpDelete(k) =>
      out := {k};
    case OpFlush =>
      out := Seen(c, []);
    case OpWalk(stack, now) =>
      out := SeenExpired(c, stack, now);
    case OpRollback(epoch) =>
      out := Tagged(c, epoch);
    case _ =>
  }

  lemma RecencyStep(c0: Cache, ops: seq<Op>, ks: seq<Key>, ks': seq<Key>, used: Option<Key>, out: set<Key>)
    requires ops != [] && ByRecency(c0, ops[..|ops| - 1], ks)
    requires used == Used(Run(c0, ops[..|ops| - 1]), ops[|ops| - 1])
    requires ks' == if used.Some? then [used.value] + Drop(ks, {used.value}) else Drop(ks, out)
    ensures ByRecency(c0, ops, ks')
  {
    hide Used, Run, LastUse;
    var before := ops[..|ops| - 1];
    forall k ensures LastUse(c0, ops, k) == if used == Some(k) then |before| else LastUse(c0, before, k) {
      LastUseStep(c0, ops, k);
    }
    if used.None? {
      DropByRecency(c0, before, ks, out);
    } else {
      var rest := Drop(ks, {used.value});
      DropByRecency(c0, before, ks, {used.value});
      forall i, j | 0 <= i < j < |ks'|
        ensures LastUse(c0, ops, ks'[i]) > LastUse(c0, ops, ks'[j])
      {
        assert ks'[j] == rest[j - 1] && rest[j - 1] != used.value;
        LastUseBound(c0, before, ks'[j]);
        if i > 0 {
          assert ks'[i] == rest[i - 1] && rest[i - 1] != used.value;
        }
      }
    }
  }

  /** After every run the list is ordered by the last successful find or create. */
  lemma {:induction false} RunOrderedByRecency(overhead: nat, maxSize: nat, ops: seq<Op>)
    ensures var c0 := Empty(overhead, maxSize);
            ByRecency(c0, ops, Run(c0, ops).lru)
  {
    hide Step, Used, Wf, Drop;
    var c0 := Empty(overhead, maxSize);
    if ops != [] {
      var before, op := ops[..|ops| - 1], ops[|ops| - 1];
      var c := Run(c0, before);
      RunOrderedByRecency(overhead, maxSize, before);
      RunKeeps(overhead, maxSize, before);
      var out := StepOrder(c, op);
      RecencyStep(c0, ops, c.lru, Run(c0, ops).lru, Used(c, op), out);
    }
  }

  // ----- transactions

  /** The map from keys to committed values. */
  ghost function Committed(c: Cache): map<Key, Value> {
    map k | k in c.entries && c.entries[k].value.Some? :: c.entries[k].value.value
  }

  /** The map from keys to the uncommitted values of a transaction. */
  ghost function Uncommitted(c: Cache, epoch: nat): map<Key, Value> {
    map k | k in c.entries && c.entries[k].uncommitted.Some? && c.entries[k].epoch == epoch
      :: c.entries[k].uncommitted.value
  }

  /** The part of the invariant about single entries. */
  ghost predicate EntriesOk(c: Cache) {
    forall k :: k in c.entries ==> EntryOk(c, k)
  }

  lemma TaggedIsPending(c: Cache, epoch: nat, k: Key)
    requires EntriesOk(c) && k in c.entries
    ensures k in Tagged(c, epoch) <==> c.entries[k].value.None? && c.entries[k].epoch == epoch && epoch != 0
  {
    assert EntryOk(c, k);
  }

  /** Commit publishes exactly the transaction's values ... */
  lemma CommitPublishes(c: Cache, epoch: nat)
    requires EntriesOk(c)
    ensures Committed(Commit(c, epoch)) == Committed(c) + Uncommitted(c, epoch)
  {
    var c' := Commit(c, epoch);
    forall k | k in c.entries
      ensures c'.entries[k].value == if k in Uncommitted(c, epoch) then c.entries[k].uncommitted else c.entries[k].value
    {
      TaggedIsPending(c, epoch, k);
      assert EntryOk(c, k);
    }
  }

  /** ... and leaves other transactions, the sizes, the list and the free log as they are. */
  lemma CommitChangesNoOther(c: Cache, epoch: nat, other: nat)
    requires EntriesOk(c)
    ensures var c' := Commit(c, epoch);
            && Uncommitted(c', other) == (if other == epoch then map[] else Uncommitted(c, other))
            && c'.lru == c.lru && c'.currentSize == c.currentSize && c'.released == c.released
            && c'.entries.Keys == c.entries.Keys
  {
    var c' := Commit(c, epoch);
    forall k | k in c.entries
      ensures k in Uncommitted(c', other) <==> other != epoch && k in Uncommitted(c, other)
      ensures k in Uncommitted(c', other) ==> c'.entries[k] == c.entries[k]
    {
      TaggedIsPending(c, epoch, k);
      assert EntryOk(c, k);
    }
  }

  /** Rollback removes exactly the valueless entries of the transaction ... */
  lemma RollbackRemoves(c: Cache, epoch: nat, k: Key)
    requires EntriesOk(c) && k in c.entries
    ensures var c' := Rollback(c, epoch); var e := c.entries[k];
            && (k !in c'.entries <==> e.value.None? && e.epoch == epoch && epoch != 0)
            && (k in c'.entries ==> c'.entries[k] == e)
  {
    TaggedIsPending(c, epoch, k);
  }

  /** ... so no committed value and no other transaction's value is touched. */
  lemma RollbackDiscards(c: Cache, epoch: nat, other: nat)
    requires EntriesOk(c)
    ensures var c' := Rollback(c, epoch);
            && Committed(c') == Committed(c)
            && Uncommitted(c', other) == (if other == epoch then map[] else Uncommitted(c, other))
  {
    var c' := Rollback(c, epoch);
    forall k | k in c.entries
      ensures k in Committed(c) ==> k in c'.entries
      ensures k in c'.entries ==> c'.entries[k] == c.entries[k]
      ensures k in Uncommitted(c, other) ==> (k in c'.entries <==> other != epoch)
      ensures k in Uncommitted(c', other) ==> other != epoch
    {
      RollbackRemoves(c, epoch, k);
      assert EntryOk(c, k);
    }
  }

  // ----- no dirty reads

  /** The keys and values written so far under a transaction. */
  ghost function Written(ops: seq<Op>, epoch: nat): set<(Key, Value)> {
    set op | op in ops && op.OpSet? && op.epoch == epoch :: (op.k, op.v)
  }

  /** The keys and values published so far: stored outside transactions, or committed with theirs. */
  ghost function Public(ops: seq<Op>): set<(Key, Value)> {
    if ops == [] then {}
    else
      var before, op := ops[..|ops| - 1], ops[|ops| - 1];
      match op
      case OpSet(k, v, _, _, _, 0) => Public(before) + {(k, v)}
      case OpCommit(epoch) => Public(before) + Written(before, epoch)
      case _ => Public(before)
  }

  /** Where the values of an entry can come from. */
  ghost predicate Traced(ops: seq<Op>, k: Key, e: Entry) {
    && (e.value.Some? ==> (k, e.value.value) in Public(ops))
    && (e.uncommitted.Some? ==> e.epoch != 0 && (k, e.uncommitted.value) in Written(ops, e.epoch))
  }

  /** An entry of the next state is an old one, an empty one, or one just written or committed. */
  ghost predicate Evolves(c: Cache, op: Op, k: Key, e: Entry) {
    || (k in c.entries && e == c.entries[k])
    || Hollow(e)
    || (op.OpSet? && op.k == k && e.value == Some(op.v) && e.uncommitted.None? && op.epoch == 0)
    || (op.OpSet? && op.k == k && e.value.None? && e.uncommitted == Some(op.v) && e.epoch == op.epoch != 0)
    || (op.OpCommit? && k in c.entries && e.value == c.entries[k].uncommitted && e.uncommitted.None?
        && c.entries[k].epoch == op.epoch)
  }

  lemma UnsetEvolves(c: Cache, k: Key, x: Key)
    requires EntriesOk(c) && k in c.entries && x in c.entries
    ensures Unset(c, k).entries.Keys == c.entries.Keys
    ensures if x == k then Hollow(Unset(c, k).entries[x]) else Unset(c, k).entries[x] == c.entries[x]
  {
    assert EntryOk(c, k);
  }

  lemma SetEvolves(c: Cache, op: Op, x: Key)
    requires EntriesOk(c) && op.OpSet? && op.k in c.entries && x in Step(c, op).entries
    ensures Evolves(c, op, x, Step(c, op).entries[x])
    ensures x != op.k ==> x in c.entries && Step(c, op).entries[x] == c.entries[x]
  {
    UnsetEvolves(c, op.k, op.k);
    if x in c.entries {
      UnsetEvolves(c, op.k, x);
    }
  }

  lemma StepEvolves(c: Cache, op: Op, k: Key)
    requires EntriesOk(c) && k in Step(c, op).entries
    ensures Evolves(c, op, k, Step(c, op).entries[k])
  {
    match op
    case OpSet(x, v, size, timeout, maxSize, epoch) =>
      if x in c.entries {
        SetEvolves(c, op, k);
      }
    case OpUnset(x) =>
      if x in c.entries {
        UnsetEvolves(c, x, k);
      }
    case OpCreate(x, now) =>
      if x in c.entries {
        UnsetEvolves(c, x, k);
      }
    case _ =>
  }

  lemma StepTraced(ops: seq<Op>, c: Cache, op: Op, k: Key, e: Entry)
    requires k in c.entries ==> Traced(ops, k, c.entries[k])
    requires Evolves(c, op, k, e)
    ensures Traced(ops + [op], k, e)
  {
    var ops' := ops + [op];
    assert ops'[..|ops'| - 1] == ops && ops'[|ops'| - 1] == op;
    assert forall o :: o in ops ==> o in ops';
    assert op in ops';
  }

  /**
   * Over every run: what a caller sees under a key was stored there outside any transaction,
   * was committed there, or was written there under a transaction of the caller's own stack.
   */
  lemma RunHasNoDirtyReads(overhead: nat, maxSize: nat, ops: seq<Op>, k: Key, stack: seq<nat>)
    requires k in Run(Empty(overhead, maxSize), ops).entries
    ensures var seen := Visible(Run(Empty(overhead, maxSize), ops).entries[k], stack);
            seen.Some? ==> || (k, seen.value) in Public(ops)
                           || exists e :: e in stack && e != 0 && (k, seen.value) in Written(ops, e)
  {
    RunTraced(overhead, maxSize, ops, k);
  }

  lemma {:induction false} RunTraced(overhead: nat, maxSize: nat, ops: seq<Op>, k: Key)
    requires k in Run(Empty(overhead, maxSize), ops).entries
    ensures Traced(ops, k, Run(Empty(overhead, maxSize), ops).entries[k])
  {
    hide Step, Traced, Evolves, EntryOk;
    if ops != [] {
      var before, op := ops[..|ops| - 1], ops[|ops| - 1];
      var c := Run(Empty(overhead, maxSize), before);
      RunKeeps(overhead, maxSize, before);
      StepEvolves(c, op, k);
      if k in c.entries {
        RunTraced(overhead, maxSize, before, k);
      }
      StepTraced(before, c, op, k, Step(c, op).entries[k]);
      assert before + [op] == ops;
    }
  }

  // ----- a transaction that is rolled back

  /** A call of a transaction that only looks entries up and stores values under its epoch. */
  ghost predicate Fills(op: Op, epoch: nat) {
    match op
    case OpFind(_, _, _) => true
    case OpCreate(_, _) => true
    case OpWalk(_, _) => true
    case OpSet(_, _, _, _, _, e) => e == epoch
    case _ => false
  }

  ghost predicate FillsOnly(ops: seq<Op>, epoch: nat) {
    forall i :: 0 <= i < |ops| ==> Fills(ops[i], epoch)
  }

  /** The key whose committed value a call replaces by an uncommitted one. */
  ghost function Overwritten(c: Cache, op: Op): set<Key> {
    if op.OpSet? && op.epoch != 0 && op.k in c.entries && c.entries[op.k].value.Some? then {op.k} else {}
  }

  /** The committed keys a call gives up because they expired, had to be pruned, or are overwritten. */
  ghost function Lost(c: Cache, op: Op): set<Key> {
    match op
    case OpFind(k, _, now) => if k in c.entries && Expired(c.entries[k], now) then {k} else {}
    case OpCreate(k, now) => if k in c.entries && Expired(c.entries[k], now) then {k} else {}
    case OpWalk(_, now) => set k | k in c.entries && Expired(c.entries[k], now)
    case OpSet(_, _, _, _, _, _) => (set k | k in c.lru && k !in Step(c, op).lru) + Overwritten(c, op)
    case _ => {}
  }

  ghost function LostIn(c: Cache, ops: seq<Op>): set<Key> {
    if ops == [] then {}
    else LostIn(c, ops[..|ops| - 1]) + Lost(Run(c, ops[..|ops| - 1]), ops[|ops| - 1])
  }

  lemma {:induction false} RunWf(c: Cache, ops: seq<Op>)
    requires Wf(c)
    ensures Wf(Run(c, ops))
  {
    hide Step, Wf;
    if ops != [] {
      RunWf(c, ops[..|ops| - 1]);
      StepWf(Run(c, ops[..|ops| - 1]), ops[|ops| - 1]);
    }
  }

  lemma FillCommitted(c: Cache, op: Op, epoch: nat)
    requires Wf(c) && epoch != 0 && Fills(op, epoch)
    ensures Committed(Step(c, op)) == Committed(c) - Lost(c, op)
  {
    forall k: Key
      ensures k in Committed(Step(c, op)) <==> k in Committed(c) && k !in Lost(c, op)
      ensures k in Committed(Step(c, op)) ==> Step(c, op).entries[k].value == c.entries[k].value
    {
      FillKey(c, op, epoch, k);
    }
  }

  lemma FillKey(c: Cache, op: Op, epoch: nat, k: Key)
    requires Wf(c) && epoch != 0 && Fills(op, epoch)
    ensures k in Committed(Step(c, op)) <==> k in Committed(c) && k !in Lost(c, op)
    ensures k in Committed(Step(c, op)) ==> Step(c, op).entries[k].value == c.entries[k].value
  {
    hide EntryOk, Total, NoDup, Drop, Weights, Union, Set;
    match op
    case OpFind(x, stack, now) =>
    case OpWalk(stack, now) =>
    case OpCreate(x, now) =>
      if x in c.entries && k in c.entries {
        UnsetEvolves(c, x, k);
      }
    case OpSet(x, v, size, timeout, maxSize, e) =>
      if x in c.entries {
        FillSetKey(c, op, epoch, k);
      }
    case _ =>
  }

  lemma FillSetKey(c: Cache, op: Op, epoch: nat, k: Key)
    requires Wf(c) && epoch != 0 && Fills(op, epoch) && op.OpSet? && op.k in c.entries
    ensures k in Committed(Step(c, op)) <==> k in Committed(c) && k !in Lost(c, op)
    ensures k in Committed(Step(c, op)) ==> Step(c, op).entries[k].value == c.entries[k].value
  {
    hide EntryOk, Total, NoDup, Drop, Weights, Union;
    StepWf(c, op);
    var c' := Step(c, op);
    assert k in c'.entries <==> k in c'.lru;
    assert k in c.entries <==> k in c.lru;
    if k in c'.entries {
      SetEvolves(c, op, k);
    }
  }

  lemma {:induction false} FillRunCommitted(c: Cache, ops: seq<Op>, epoch: nat)
    requires Wf(c) && epoch != 0 && FillsOnly(ops, epoch)
    ensures Committed(Run(c, ops)) == Committed(c) - LostIn(c, ops)
  {
    hide Step, Wf, Committed, Lost, Fills;
    if ops == [] {
      assert Committed(c) - {} == Committed(c);
    } else {
      var before, op := ops[..|ops| - 1], ops[|ops| - 1];
      FillRunCommitted(c, before, epoch);
      RunWf(c, before);
      FillCommitted(Run(c, before), op, epoch);
      MinusTwice(Committed(c), LostIn(c, before), Lost(Run(c, before), op));
    }
  }

  lemma MinusTwice(m: map<Key, Value>, a: set<Key>, b: set<Key>)
    ensures m - a - b == m - (a + b)
  {
  }

  /**
   * A transaction that is rolled back leaves the committed map as it was, minus the entries
   * that expired or were pruned on the way, and minus those whose committed values it
   * overwrote: so a transaction that only filled absent keys leaves no trace of its own.
   */
  lemma RolledBackLeavesNoTrace(c: Cache, ops: seq<Op>, epoch: nat)
    requires Wf(c) && epoch != 0 && FillsOnly(ops, epoch)
    ensures Committed(Rollback(Run(c, ops), epoch)) == Committed(c) - LostIn(c, ops)
  {
    FillRunCommitted(c, ops, epoch);
    RunWf(c, ops);
    RollbackDiscards(Run(c, ops), epoch, epoch);
  }

  /** Rolling back does not bring a committed value back that the transaction overwrote. */
  lemma RollbackLosesOverwritten(c: Cache, op: Op, k: Key)
    requires Wf(c) && op.OpSet? && op.epoch != 0 && k in Committed(c)
    ensures k in Committed(Rollback(Step(c, op), op.epoch)) <==> op.k != k && k in Step(c, op).lru
  {
    hide EntryOk, Total, NoDup, Drop, Weights, Union, Set, Rollback, Step;
    StepWf(c, op);
    RollbackDiscards(Step(c, op), op.epoch, op.epoch);
    FillKey(c, op, op.epoch, k);
  }
}
