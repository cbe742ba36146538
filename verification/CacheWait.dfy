/**
 * Ns_CacheWaitCreateEntryT and its callers as a system of threads.
 *
 * Each step is what one thread does while it holds the cache lock; a waiting thread gives
 * the lock up and later runs the loop body again.  A thread that was told that its entry is
 * new builds the value without the lock and then stores it or deletes the entry.
 */
module CacheWait {
  import opened Prelude
  import opened Tallies
  import opened CacheSpec
  import opened CacheLaws
  import R = CacheRuns
  import M = CacheMap

  type Tid = nat

  datatype Thread =
    | Idle
    /** `force` says that the caller will rebuild the value even if there is one. */
    | Waiting(k: Key, stack: seq<nat>, force: bool)
    | Building(k: Key)
    /** The call returned the entry of `k` with isNew 0, and the caller read `value`. */
    | Returned(k: Key, stack: seq<nat>, value: Option<Value>)
    /** The call returned no entry. */
    | TimedOut(k: Key)

  datatype System = System(c: Cache, threads: map<Tid, Thread>)

  datatype Action =
    | Call(t: Tid, k: Key, stack: seq<nat>, force: bool, now: Time)
    | Wake(t: Tid, timeout: bool, now: Time)
    | Finish(t: Tid, v: Value, size: nat, expires: Option<Time>, maxSize: nat, epoch: nat)
    | Abandon(t: Tid)
    | Other(op: R.Op)

  function ThreadOf(s: System, t: Tid): Thread {
    if t in s.threads then s.threads[t] else Idle
  }

  predicate Builds(s: System, t: Tid, k: Key) {
    ThreadOf(s, t) == Building(k)
  }

  /** What a thread makes of Ns_CacheCreateEntry's answer; `last` says the loop ends here anyway. */
  function After(c: Cache, isNew: bool, k: Key, stack: seq<nat>, force: bool, last: bool): Thread
    requires k in c.entries
  {
    if last then TimedOut(k)
    else if isNew then Building(k)
    else if Visible(c.entries[k], stack).None? then Waiting(k, stack, force)
    else if force then Building(k)
    else Returned(k, stack, Visible(c.entries[k], stack))
  }

  /**
   * One turn of Ns_CacheWaitCreateEntryT.  A caller that got an old entry and wants to build
   * it again unsets its value before it gives up the lock.
   */
  function Attempt(s: System, t: Tid, k: Key, stack: seq<nat>, force: bool, now: Time, last: bool): System {
    var (c', isNew) := Create(s.c, k, now);
    if k !in c'.entries then s
    else
      var thread := After(c', isNew, k, stack, force, last);
      System(if thread.Building? && !isNew then Unset(c', k) else c', s.threads[t := thread])
  }

  /**
   * Whether an action can happen at all.  Besides waiting and building, threads do every
   * other call: they may look at any entry, create one that is there, and store into one
   * that has a value.  Values are unset only in order to build them again.
   */
  predicate Enabled(s: System, a: Action) {
    match a
    case Call(t, _, _, _, _) => !ThreadOf(s, t).Waiting? && !ThreadOf(s, t).Building?
    case Wake(t, _, _) => ThreadOf(s, t).Waiting?
    case Finish(t, _, _, _, _, _) => ThreadOf(s, t).Building? && ThreadOf(s, t).k in s.c.entries
    case Abandon(t) => ThreadOf(s, t).Building?
    case Other(op) =>
      match op
      case OpCreate(k, now) => !Create(s.c, k, now).1
      case OpSet(k, _, _, _, _, _) => k in s.c.entries ==> !Hollow(s.c.entries[k])
      case OpUnset(_) => false
      case _ => true
  }

  function Next(s: System, a: Action): System
    requires Enabled(s, a)
  {
    match a
    case Call(t, k, stack, force, now) => Attempt(s, t, k, stack, force, now, false)
    case Wake(t, timeout, now) =>
      var w := ThreadOf(s, t);
      Attempt(s, t, w.k, w.stack, w.force, now, timeout)
    case Finish(t, v, size, expires, maxSize, epoch) =>
      System(Set(s.c, ThreadOf(s, t).k, v, size, expires, maxSize, epoch), s.threads[t := Idle])
    case Abandon(t) => System(Delete(s.c, ThreadOf(s, t).k), s.threads[t := Idle])
    case Other(op) => s.(c := R.Step(s.c, op))
  }

  /**
   * No thread takes away an entry that another one is building: entries without any value
   * are not deleted by key, and a transaction is not rolled back while an entry that still
   * carries its tag is being built.
   */
  ghost predicate Respectful(s: System, a: Action) {
    && (a.Other? && a.op.OpDelete? ==> forall t :: !Builds(s, t, a.op.k))
    && (a.Other? && a.op.OpRollback? ==>
          forall t, k :: Builds(s, t, k) ==> k !in Tagged(s.c, a.op.epoch))
  }

  // ----- at most one builder

  ghost predicate Inv(s: System) {
    && Wf(s.c)
    && (forall t, k :: Builds(s, t, k) ==> k in s.c.entries && Hollow(s.c.entries[k]))
    && (forall t, u, k :: Builds(s, t, k) && Builds(s, u, k) ==> t == u)
  }

  lemma HollowNotExpired(c: Cache, k: Key, now: Time)
    requires Wf(c) && k in c.entries && Hollow(c.entries[k])
    ensures !Expired(c.entries[k], now)
  {
    assert EntryOk(c, k);
  }

  /** Creating `k` leaves every other entry as it is, and a hollow `k` too. */
  lemma CreateOthers(c: Cache, k: Key, now: Time, x: Key)
    requires Wf(c) && x in c.entries && Hollow(c.entries[x])
    ensures var (c', isNew) := Create(c, k, now);
            && x in c'.entries && c'.entries[x] == c.entries[x]
            && (x == k ==> !isNew)
  {
    HollowNotExpired(c, x, now);
  }

  /** Unsetting `k` leaves other entries alone and `k` hollow. */
  lemma UnsetOthers(c: Cache, k: Key, x: Key)
    requires Wf(c) && k in c.entries && x in c.entries
    ensures Wf(Unset(c, k)) && Unset(c, k).entries.Keys == c.entries.Keys
    ensures if x == k then Hollow(Unset(c, k).entries[x]) else Unset(c, k).entries[x] == c.entries[x]
  {
    hide Unset, Hollow, EntryOk;
    UnsetWf(c, k);
    R.UnsetEvolves(c, k, x);
  }

  /** One turn keeps the entries that others build, and its thread builds only what nobody builds. */
  lemma AttemptIs(s: System, t: Tid, k: Key, stack: seq<nat>, force: bool, now: Time, last: bool, x: Key)
    requires Wf(s.c)
    ensures var s' := Attempt(s, t, k, stack, force, now, last);
            && Wf(s'.c)
            && (x in s.c.entries && Hollow(s.c.entries[x]) ==>
                  x in s'.c.entries && s'.c.entries[x] == s.c.entries[x] && ThreadOf(s', t) != Building(x))
            && (ThreadOf(s', t) == Building(x) ==> x == k && x in s'.c.entries && Hollow(s'.c.entries[x]))
            && forall u :: u != t ==> ThreadOf(s', u) == ThreadOf(s, u)
  {
    hide Wf, Create, Unset;
    CreateWf(s.c, k, now);
    var (c', isNew) := Create(s.c, k, now);
    CreateMakesHollow(s.c, k, now, k);
    UnsetOthers(c', k, k);
    if x in s.c.entries && Hollow(s.c.entries[x]) {
      CreateOthers(s.c, k, now, x);
      UnsetOthers(c', k, x);
    }
  }

  lemma AttemptKeepsInv(s: System, t: Tid, k: Key, stack: seq<nat>, force: bool, now: Time, last: bool)
    requires Inv(s) && !ThreadOf(s, t).Building?
    ensures Inv(Attempt(s, t, k, stack, force, now, last))
  {
    hide Wf, Attempt, Hollow;
    AttemptIs(s, t, k, stack, force, now, last, k);
    var s' := Attempt(s, t, k, stack, force, now, last);
    forall u, x | Builds(s', u, x)
      ensures x in s'.c.entries && Hollow(s'.c.entries[x])
      ensures u != t ==> Builds(s, u, x)
      ensures u == t ==> forall w :: !Builds(s, w, x)
    {
      AttemptIs(s, t, k, stack, force, now, last, x);
      assert u != t ==> Builds(s, u, x);
    }
  }

  /** Any other call leaves a hollow entry alone, unless it deletes or rolls it back. */
  lemma OthersLeaveHollow(s: System, op: R.Op, k: Key)
    requires Wf(s.c) && Enabled(s, Other(op)) && k in s.c.entries && Hollow(s.c.entries[k])
    requires op.OpDelete? ==> op.k != k
    requires op.OpRollback? ==> k !in Tagged(s.c, op.epoch)
    ensures k in R.Step(s.c, op).entries && Hollow(R.Step(s.c, op).entries[k])
  {
    hide EntryOk, Drop, NoDup, Total, Union, Set, Create;
    if op.OpFind? || op.OpWalk? {
      HollowNotExpired(s.c, k, op.now);
    } else if op.OpCreate? {
      CreateOthers(s.c, op.k, op.now, k);
    } else if op.OpSet? && op.k in s.c.entries {
      SetLeavesHollow(s.c, op.k, op.v, op.size, op.timeout, op.maxSize, op.epoch, k);
    }
  }

  lemma SetLeavesHollow(c: Cache, k: Key, v: Value, size: nat, timeout: Option<Time>, maxSize: nat, epoch: nat, x: Key)
    requires Wf(c) && k in c.entries && x in c.entries && Hollow(c.entries[x]) && x != k
    ensures var c' := Set(c, k, v, size, timeout, maxSize, epoch);
            x in c'.entries && c'.entries[x] == c.entries[x]
  {
    hide EntryOk, Drop, Union, Unset, Store, Prune, Wf;
    var limit := if maxSize == 0 then c.maxSize else maxSize;
    StoreLeaves(c, k, v, size, timeout, epoch, x);
    var c2 := Store(Unset(c, k), k, v, size, timeout, epoch).(maxSize := limit);
    PruneLeaves(c2, k, limit, x);
  }

  lemma StoreLeaves(c: Cache, k: Key, v: Value, size: nat, timeout: Option<Time>, epoch: nat, x: Key)
    requires Wf(c) && k in c.entries && x in c.entries && x != k
    ensures k in Unset(c, k).entries
    ensures var c2 := Store(Unset(c, k), k, v, size, timeout, epoch);
            x in c2.entries && c2.entries[x] == c.entries[x] && x in c2.lru
  {
    hide EntryOk, Drop, Union, Total, NoDup;
  }

  /** Pruning stops at an entry without a value. */
  lemma PruneLeaves(c: Cache, k: Key, limit: nat, x: Key)
    requires x in c.entries && Hollow(c.entries[x])
    ensures x in Prune(c, k, limit).entries && Prune(c, k, limit).entries[x] == c.entries[x]
  {
    hide Drop, Keep, Union, Total, Weights, Fit;
    var n := Fit(c, k, limit, |c.lru|);
    forall i | n <= i < |c.lru| ensures c.lru[i] != x {
      assert MustPrune(c, k, limit, i + 1);
    }
  }

  lemma FinishKeepsInv(s: System, a: Action)
    requires Inv(s) && a.Finish? && Enabled(s, a)
    ensures Inv(Next(s, a))
  {
    hide Wf, Set, Hollow;
    var k := ThreadOf(s, a.t).k;
    SetWf(s.c, k, a.v, a.size, a.expires, a.maxSize, a.epoch);
    var s' := Next(s, a);
    assert Builds(s, a.t, k);
    forall u, x | Builds(s', u, x)
      ensures Builds(s, u, x) && x in s'.c.entries && Hollow(s'.c.entries[x])
    {
      assert Builds(s, u, x);
      SetLeavesHollow(s.c, k, a.v, a.size, a.expires, a.maxSize, a.epoch, x);
    }
  }

  /** The building invariant is kept by every respectful step. */
  lemma NextKeepsInv(s: System, a: Action)
    requires Inv(s) && Enabled(s, a) && Respectful(s, a)
    ensures Inv(Next(s, a))
  {
    hide Wf, Set, Delete, Hollow, R.Step, Attempt;
    match a
    case Call(t, k, stack, force, now) =>
      AttemptKeepsInv(s, t, k, stack, force, now, false);
    case Wake(t, timeout, now) =>
      var w := ThreadOf(s, t);
      AttemptKeepsInv(s, t, w.k, w.stack, w.force, now, timeout);
    case Finish(t, v, size, expires, maxSize, epoch) =>
      FinishKeepsInv(s, a);
    case Abandon(t) =>
      AbandonKeepsInv(s, a);
    case Other(op) =>
      R.StepWf(s.c, op);
      var s' := Next(s, a);
      forall u, x | Builds(s', u, x)
        ensures Builds(s, u, x) && x in s'.c.entries && Hollow(s'.c.entries[x])
      {
        assert Builds(s, u, x);
        OthersLeaveHollow(s, op, x);
      }
  }

  lemma AbandonKeepsInv(s: System, a: Action)
    requires Inv(s) && a.Abandon? && Enabled(s, a)
    ensures Inv(Next(s, a))
  {
    hide Wf, Hollow;
    var k := ThreadOf(s, a.t).k;
    DeleteWf(s.c, k);
    var s' := Next(s, a);
    assert Builds(s, a.t, k);
    forall u, x | Builds(s', u, x)
      ensures Builds(s, u, x) && x in s'.c.entries && Hollow(s'.c.entries[x])
    {
      assert Builds(s, u, x);
    }
  }

  // ----- every interleaving

  /** A run: each state follows from the one before by an enabled, respectful action. */
  ghost predicate IsRun(states: seq<System>, acts: seq<Action>) {
    && |states| == |acts| + 1
    && (exists overhead, maxSize :: states[0] == System(Empty(overhead, maxSize), map[]))
    && forall i :: 0 <= i < |acts| ==>
         Enabled(states[i], acts[i]) && Respectful(states[i], acts[i]) && states[i + 1] == Next(states[i], acts[i])
  }

  /** In every state of every run at most one thread builds a key, and its entry is there and empty. */
  lemma {:induction false} AtMostOneBuilder(states: seq<System>, acts: seq<Action>, i: nat)
    requires IsRun(states, acts) && i < |states|
    ensures Inv(states[i])
  {
    hide Next, Enabled, Respectful;
    if i == 0 {
      assert Inv(states[0]);
    } else {
      AtMostOneBuilder(states, acts, i - 1);
      NextKeepsInv(states[i - 1], acts[i - 1]);
    }
  }

  /**
   * A call that returns an entry with isNew 0 hands its caller a value that its own
   * transaction stack can see, in the very state in which it returns.
   */
  lemma ReturnSeesVisibleValue(s: System, a: Action)
    requires Inv(s) && Enabled(s, a) && (a.Call? || a.Wake?)
    ensures var s' := Next(s, a); var w := ThreadOf(s', a.t);
            w.Returned? ==>
              && w.k in s'.c.entries && w.value.Some? && w.value == Visible(s'.c.entries[w.k], w.stack)
              && (s'.c.entries[w.k].value.None? ==> s'.c.entries[w.k].epoch in w.stack)
              && forall t :: !Builds(s', t, w.k)
  {
    hide Wf, Create;
    var w := if a.Call? then Waiting(a.k, a.stack, a.force) else ThreadOf(s, a.t);
    var last := a.Wake? && a.timeout;
    CreateWf(s.c, w.k, a.now);
    AttemptKeepsInv(s, a.t, w.k, w.stack, w.force, a.now, last);
    assert Next(s, a) == Attempt(s, a.t, w.k, w.stack, w.force, a.now, last);
  }

  // ----- what a caller gets

  /**
   * What one turn of the wait loop comes to, told from the state before it: the caller builds
   * the value if there is no entry or an expired one, or if it insists; waits if it can see
   * no value; and gets the value it can see otherwise.
   */
  lemma AttemptOutcome(s: System, t: Tid, k: Key, stack: seq<nat>, force: bool, now: Time, last: bool)
    requires Wf(s.c)
    ensures var m := M.Abs(s.c);
            ThreadOf(Attempt(s, t, k, stack, force, now, last), t) ==
              if last then TimedOut(k)
              else if k !in s.c.entries || (k in m && M.Past(m[k].expires, now)) then Building(k)
              else if M.Lookup(m, k, stack).None? then Waiting(k, stack, force)
              else if force then Building(k)
              else Returned(k, stack, M.Lookup(m, k, stack))
  {
    hide Wf, Unset, M.Abs, M.Past, M.Lookup, Create, Visible;
    M.CreateReportsIff(s.c, k, now);
    if k in s.c.entries {
      M.VisibleIsLookup(s.c, k, stack);
      if !Create(s.c, k, now).1 {
        CreateKeepsEntry(s.c, k, now);
      }
    }
  }

  lemma CreateKeepsEntry(c: Cache, k: Key, now: Time)
    requires k in c.entries && !Create(c, k, now).1
    ensures Create(c, k, now).0.entries == c.entries
  {
  }

  /** When a builder is done, its value is there, with its size and expiry, and it is free again. */
  lemma FinishStores(s: System, a: Action)
    requires Inv(s) && a.Finish? && Enabled(s, a)
    ensures var k := ThreadOf(s, a.t).k; var s' := Next(s, a);
            && M.At(M.Abs(s'.c), k) == Some(M.NewCell(R.OpSet(k, a.v, a.size, a.expires, a.maxSize, a.epoch)))
            && ThreadOf(s', a.t) == Idle
  {
    hide Wf, Set, M.Abs, R.Step;
    var k := ThreadOf(s, a.t).k;
    var op := R.OpSet(k, a.v, a.size, a.expires, a.maxSize, a.epoch);
    R.SetStep(s.c, op);
    M.SetKeyStays(s.c, op);
  }

  // ----- entries that nobody builds

  /** An empty entry that no thread is building: everybody who asks for it has to wait. */
  ghost predicate Orphan(s: System, k: Key) {
    k in s.c.entries && Hollow(s.c.entries[k]) && forall t :: !Builds(s, t, k)
  }

  lemma OthersMakeNoHollow(s: System, op: R.Op, k: Key)
    requires Wf(s.c) && Enabled(s, Other(op))
    requires k in R.Step(s.c, op).entries && Hollow(R.Step(s.c, op).entries[k])
    ensures k in s.c.entries && Hollow(s.c.entries[k])
  {
    hide Drop, NoDup, Total, Union, Set, Create, EntryOk;
    if op.OpCreate? {
      CreateMakesHollow(s.c, op.k, op.now, k);
    } else if op.OpSet? && op.k in s.c.entries {
      SetMakesNoHollow(s.c, op.k, op.v, op.size, op.timeout, op.maxSize, op.epoch, k);
    } else if op.OpCommit? {
      CommitMakesNoHollow(s.c, op.epoch, k);
    }
  }

  lemma CommitMakesNoHollow(c: Cache, epoch: nat, k: Key)
    requires Wf(c) && k in c.entries && Hollow(Commit(c, epoch).entries[k])
    ensures Hollow(c.entries[k])
  {
    hide Drop, NoDup, Total, Union;
    assert EntryOk(c, k);
  }

  lemma CreateMakesHollow(c: Cache, k: Key, now: Time, x: Key)
    requires Wf(c)
    ensures var (c', isNew) := Create(c, k, now);
            && k in c'.entries && (isNew ==> Hollow(c'.entries[k]))
            && (x in c'.entries && Hollow(c'.entries[x]) && (x != k || !isNew) ==> x in c.entries && Hollow(c.entries[x]))
  {
    hide Drop, NoDup, Total, Union;
    CreateWf(c, k, now);
    if k in c.entries {
      R.UnsetEvolves(c, k, k);
      if x in c.entries {
        R.UnsetEvolves(c, k, x);
      }
    }
  }

  lemma SetMakesNoHollow(c: Cache, k: Key, v: Value, size: nat, timeout: Option<Time>, maxSize: nat, epoch: nat, x: Key)
    requires Wf(c) && k in c.entries
    requires var c' := Set(c, k, v, size, timeout, maxSize, epoch); x in c'.entries && Hollow(c'.entries[x])
    ensures x != k && x in c.entries && Hollow(c.entries[x])
  {
    hide Drop, NoDup, Total, Union, Fit;
    R.UnsetEvolves(c, k, k);
    if x in c.entries {
      R.UnsetEvolves(c, k, x);
    }
  }

  /**
   * An orphan appears exactly when a waiter times out and its last Ns_CacheCreateEntry made
   * the entry anew: the call then returns no entry although isNew is 1.
   */
  lemma OrphanAppearsIff(s: System, a: Action, k: Key)
    requires Inv(s) && Enabled(s, a) && Respectful(s, a) && !Orphan(s, k)
    ensures Orphan(Next(s, a), k)
       <==> a.Wake? && a.timeout && ThreadOf(s, a.t).k == k && Create(s.c, k, a.now).1
  {
    hide Inv, Orphan, Attempt;
    match a
    case Call(t, x, stack, force, now) =>
      AttemptOrphans(s, t, x, stack, force, now, false, k);
    case Wake(t, timeout, now) =>
      AttemptOrphans(s, t, ThreadOf(s, t).k, ThreadOf(s, t).stack, ThreadOf(s, t).force, now, timeout, k);
    case _ =>
      QuietOrphans(s, a, k);
  }

  lemma AttemptOrphans(s: System, t: Tid, x: Key, stack: seq<nat>, force: bool, now: Time, last: bool, k: Key)
    requires Inv(s) && !ThreadOf(s, t).Building? && !Orphan(s, k)
    ensures Orphan(Attempt(s, t, x, stack, force, now, last), k) <==> last && x == k && Create(s.c, k, now).1
  {
    hide Wf, Create, Hollow, Unset;
    var s' := Attempt(s, t, x, stack, force, now, last);
    var (c', isNew) := Create(s.c, x, now);
    CreateWf(s.c, x, now);
    CreateMakesHollow(s.c, x, now, k);
    AttemptIs(s, t, x, stack, force, now, last, k);
    UnsetOthers(c', x, x);
    if k in c'.entries {
      UnsetOthers(c', x, k);
    }
    if k in s.c.entries && Hollow(s.c.entries[k]) {
      var u :| Builds(s, u, k);
      CreateOthers(s.c, x, now, k);
      assert Builds(s', u, k);
    } else if x == k && !last && ThreadOf(s', t).Building? {
      assert Builds(s', t, k);
    } else if last && x == k && isNew {
      forall u ensures !Builds(s', u, k) {
        assert Builds(s', u, k) ==> Builds(s, u, k);
      }
    }
  }

  lemma QuietOrphans(s: System, a: Action, k: Key)
    requires Inv(s) && Enabled(s, a) && Respectful(s, a) && !Orphan(s, k) && !a.Call? && !a.Wake?
    ensures !Orphan(Next(s, a), k)
  {
    hide Wf, Set, Hollow, R.Step;
    var s' := Next(s, a);
    if k in s'.c.entries && Hollow(s'.c.entries[k]) {
      match a {
        case Finish(t, v, size, expires, maxSize, epoch) =>
          SetMakesNoHollow(s.c, ThreadOf(s, t).k, v, size, expires, maxSize, epoch, k);
        case Abandon(t) =>
        case Other(op) =>
          OthersMakeNoHollow(s, op, k);
      }
      var u :| Builds(s, u, k);
      assert Builds(s', u, k);
    }
  }

  /** The action deletes the entry of `k`, or rolls back the transaction whose tag it carries. */
  predicate Frees(s: System, a: Action, k: Key) {
    a.Other? && ((a.op.OpDelete? && a.op.k == k) || (a.op.OpRollback? && k in Tagged(s.c, a.op.epoch)))
  }

  /** The thread has just been given the entry of `k`, to read or to build. */
  predicate Served(s: System, t: Tid, k: Key) {
    (ThreadOf(s, t).Returned? || ThreadOf(s, t).Building?) && ThreadOf(s, t).k == k
  }

  /**
   * An orphan survives every action but the deletion of its key and the rollback of its tag,
   * and meanwhile nobody is given its entry: whoever asks for it waits or times out.
   */
  lemma OrphanStaysIff(s: System, a: Action, k: Key)
    requires Inv(s) && Enabled(s, a) && Orphan(s, k)
    ensures Orphan(Next(s, a), k) <==> !Frees(s, a, k)
    ensures !Frees(s, a, k) ==> forall t :: Served(Next(s, a), t, k) ==> Served(s, t, k)
  {
    hide Wf, Set, Hollow, R.Step, Attempt, DeleteAll;
    var s' := Next(s, a);
    match a {
      case Call(t, x, stack, force, now) =>
        AttemptOnOrphan(s, t, x, stack, force, now, false, k);
      case Wake(t, timeout, now) =>
        AttemptOnOrphan(s, t, ThreadOf(s, t).k, ThreadOf(s, t).stack, ThreadOf(s, t).force, now, timeout, k);
      case Finish(t, v, size, expires, maxSize, epoch) =>
        assert Builds(s, t, ThreadOf(s, t).k);
        SetLeavesHollow(s.c, ThreadOf(s, t).k, v, size, expires, maxSize, epoch, k);
        OnlyOneMoves(s, s', t, k);
      case Abandon(t) =>
        assert Builds(s, t, ThreadOf(s, t).k);
        DeleteLeaves(s.c, ThreadOf(s, t).k, k);
        OnlyOneMoves(s, s', t, k);
      case Other(op) =>
        if Frees(s, a, k) {
          FreesDeletes(s.c, op, k);
        } else {
          OthersLeaveHollow(s, op, k);
          OnlyOneMoves(s, s', 0, k);
        }
    }
  }

  lemma OnlyOneMoves(s: System, s': System, t: Tid, k: Key)
    requires Orphan(s, k) && (s'.threads == s.threads || s'.threads == s.threads[t := Idle])
    requires k in s'.c.entries && Hollow(s'.c.entries[k])
    ensures Orphan(s', k) && forall u :: Served(s', u, k) ==> Served(s, u, k)
  {
    hide Hollow;
    forall u ensures !Builds(s', u, k) {
      assert Builds(s', u, k) ==> Builds(s, u, k);
    }
  }

  lemma DeleteLeaves(c: Cache, x: Key, k: Key)
    requires k in c.entries && x != k
    ensures k in Delete(c, x).entries && Delete(c, x).entries[k] == c.entries[k]
  {
  }

  lemma FreesDeletes(c: Cache, op: R.Op, k: Key)
    requires (op.OpDelete? && op.k == k) || (op.OpRollback? && k in Tagged(c, op.epoch))
    ensures k !in R.Step(c, op).entries
  {
    hide Drop, Keep, Total, Union;
  }

  lemma AttemptOnOrphan(s: System, t: Tid, x: Key, stack: seq<nat>, force: bool, now: Time, last: bool, k: Key)
    requires Inv(s) && Orphan(s, k)
    ensures var s' := Attempt(s, t, x, stack, force, now, last);
            Orphan(s', k) && forall u :: Served(s', u, k) ==> Served(s, u, k)
  {
    hide Wf, Create, Unset;
    var s' := Attempt(s, t, x, stack, force, now, last);
    AttemptIs(s, t, x, stack, force, now, last, k);
    CreateOthers(s.c, x, now, k);
    CreateMakesHollow(s.c, x, now, x);
    forall u ensures !Builds(s', u, k) {
      assert Builds(s', u, k) ==> Builds(s, u, k) || u == t;
    }
    assert !Served(s', t, k);
    forall u | Served(s', u, k) ensures Served(s, u, k) {
      assert u != t;
    }
  }

  /** In every run, as long as it is neither deleted nor rolled back, an orphan blocks its key. */
  lemma {:induction false} OrphanBlocks(states: seq<System>, acts: seq<Action>, i: nat, j: nat, k: Key)
    requires IsRun(states, acts) && i <= j < |states| && Orphan(states[i], k)
    requires forall n :: i <= n < j ==> !Frees(states[n], acts[n], k)
    ensures Orphan(states[j], k) && forall t :: Served(states[j], t, k) ==> Served(states[i], t, k)
    decreases j
  {
    hide Next, Enabled, Respectful, Orphan, Served, Frees, Inv;
    if i < j {
      OrphanBlocks(states, acts, i, j - 1, k);
      AtMostOneBuilder(states, acts, j - 1);
      OrphanStaysIff(states[j - 1], acts[j - 1], k);
    }
  }

  /** An orphan is reached: the builder gives up while another thread waits, which then times out. */
  lemma OrphanIsReachable(k: Key)
    ensures exists states: seq<System>, acts: seq<Action> :: IsRun(states, acts) && Orphan(states[|acts|], k)
  {
    hide Create, Unset;
    OneCreated(k);
    OneTouched(k);
    OneDeleted(k);
    var one := One(k, NEWBORN, {}, multiset{});
    var s0 := System(Empty(0, 0), map[]);
    var s1 := System(one, map[1 := Building(k)]);
    var s2 := System(one, map[1 := Building(k), 2 := Waiting(k, [], false)]);
    var s3 := System(Empty(0, 0), map[1 := Idle, 2 := Waiting(k, [], false)]);
    var s4 := System(one, map[1 := Idle, 2 := TimedOut(k)]);
    var states := [s0, s1, s2, s3, s4];
    var acts := [Call(1, k, [], false, Time(1, 0)), Call(2, k, [], false, Time(1, 0)), Abandon(1), Wake(2, true, Time(1, 0))];
    assert Next(s0, acts[0]) == s1;
    assert Next(s1, acts[1]) == s2;
    assert Next(s2, acts[2]) == s3;
    assert Next(s3, acts[3]) == s4;
    assert IsRun(states, acts);
    assert Orphan(states[|acts|], k);
  }

  lemma OneTouched(k: Key)
    ensures Create(One(k, NEWBORN, {}, multiset{}), k, Time(1, 0)) == (One(k, NEWBORN, {}, multiset{}), false)
  {
    DropAt([k], 0);
  }

  lemma OneDeleted(k: Key)
    ensures Delete(One(k, NEWBORN, {}, multiset{}), k) == Empty(0, 0)
  {
    var c := One(k, NEWBORN, {}, multiset{});
    DropAt([k], 0);
    UnionOne(Holdings(c.entries), k);
    assert Total(Weights(0, c.entries), [k]) == |k.name|;
  }

  // ----- rolling back under a builder

  /**
   * Rolling back a transaction takes the entry away from a thread that is building it exactly
   * when that entry still carries the transaction's tag.
   */
  lemma RollbackStealsIff(s: System, epoch: nat, t: Tid, k: Key)
    requires Inv(s) && Builds(s, t, k)
    ensures k !in Next(s, Other(R.OpRollback(epoch))).c.entries <==> k in Tagged(s.c, epoch)
  {
  }

  /** Then the next thread that asks for the key builds it too. */
  lemma StolenEntryIsBuiltTwice(
    s: System, epoch: nat, t: Tid, u: Tid, k: Key, stack: seq<nat>, force: bool, now: Time)
    requires Inv(s) && Builds(s, t, k) && k in Tagged(s.c, epoch)
    requires u != t && !ThreadOf(s, u).Waiting? && !ThreadOf(s, u).Building?
    ensures var s1 := Next(s, Other(R.OpRollback(epoch)));
            Enabled(s1, Call(u, k, stack, force, now)) &&
            var s2 := Next(s1, Call(u, k, stack, force, now));
            Builds(s2, t, k) && Builds(s2, u, k)
  {
  }

  /** A cache with the single key `k`. */
  ghost function One(k: Key, e: Entry, pending: set<Key>, released: Bag): Cache {
    Cache(0, 0, |k.name|, [k], map[k := e], pending, released)
  }

  lemma OneCreated(k: Key)
    ensures Create(Empty(0, 0), k, Time(1, 0)) == (One(k, NEWBORN, {}, multiset{}), true)
  {
    var c := Create(Empty(0, 0), k, Time(1, 0)).0;
    assert c.lru == [k] && c.entries == map[k := NEWBORN];
  }

  lemma OneStored(k: Key, v: Value)
    ensures Set(One(k, NEWBORN, {}, multiset{}), k, v, 0, Some(Time(2, 0)), 0, 7)
         == One(k, Entry(None, Some(v), 7, 0, Time(2, 0)), {k}, multiset{})
  {
    var c := One(k, NEWBORN, {}, multiset{});
    PruneNoLimit(Store(c, k, v, 0, Some(Time(2, 0)), 7), k);
  }

  lemma OneRebuilt(k: Key, v: Value)
    ensures Create(One(k, Entry(None, Some(v), 7, 0, Time(2, 0)), {k}, multiset{}), k, Time(3, 0))
         == (One(k, Entry(None, None, 7, 0, NEVER), {k}, multiset{v}), true)
  {
    var c := One(k, Entry(None, Some(v), 7, 0, Time(2, 0)), {k}, multiset{});
    var c' := Create(c, k, Time(3, 0)).0;
    DropAt([k], 0);
    assert c'.lru == [k] && c'.entries == map[k := Entry(None, None, 7, 0, NEVER)];
    assert c'.released == multiset{v};
  }

  /** Such a state is reached when an uncommitted value expires and is then built again. */
  lemma StolenEntryIsReachable(k: Key, v: Value)
    ensures exists states: seq<System>, acts: seq<Action> ::
              && IsRun(states, acts) && Builds(states[|acts|], 2, k) && k in Tagged(states[|acts|].c, 7)
  {
    hide Create, Set;
    OneCreated(k);
    OneStored(k, v);
    OneRebuilt(k, v);
    var s0 := System(Empty(0, 0), map[]);
    var s1 := System(One(k, NEWBORN, {}, multiset{}), map[1 := Building(k)]);
    var s2 := System(One(k, Entry(None, Some(v), 7, 0, Time(2, 0)), {k}, multiset{}), map[1 := Idle]);
    var s3 := System(One(k, Entry(None, None, 7, 0, NEVER), {k}, multiset{v}), map[1 := Idle, 2 := Building(k)]);
    var states := [s0, s1, s2, s3];
    var acts := [Call(1, k, [], false, Time(1, 0)), Finish(1, v, 0, Some(Time(2, 0)), 0, 7), Call(2, k, [], false, Time(3, 0))];
    assert Next(s0, acts[0]) == s1;
    assert Next(s1, acts[1]) == s2;
    assert Next(s2, acts[2]) == s3;
    assert IsRun(states, acts);
    assert Builds(states[|acts|], 2, k) && k in Tagged(states[|acts|].c, 7);
  }
}
