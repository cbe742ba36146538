/** Every cache operation keeps the invariant and loses no value. */
module CacheLaws {
  import opened Prelude
  import opened Tallies
  import opened CacheSpec

  /** The values still held together with those already released. */
  ghost function Accounted(c: Cache): Bag {
    Held(c) + c.released
  }

  lemma Shuffle(a: Bag, b: Bag, c: Bag)
    ensures a + b + c == b + (c + a)
  {
  }

  // ----- one entry changes

  lemma TotalUpdate(c: Cache, k: Key, e: Entry)
    requires Wf(c) && k in c.entries
    ensures Total(Weights(c.overhead, c.entries[k := e]), c.lru)
         == Total(Weights(c.overhead, c.entries), c.lru) - c.entries[k].size + e.size
  {
    var w, w' := Weights(c.overhead, c.entries), Weights(c.overhead, c.entries[k := e]);
    TotalPick(w, c.lru, k);
    TotalPick(w', c.lru, k);
    TotalFrame(w, w', Drop(c.lru, {k}));
  }

  lemma UnionUpdate(c: Cache, k: Key, e: Entry) returns (rest: Bag)
    requires Wf(c) && k in c.entries
    ensures Union(Holdings(c.entries), c.lru) == Holds(c.entries[k]) + rest
    ensures Union(Holdings(c.entries[k := e]), c.lru) == Holds(e) + rest
  {
    var h, h' := Holdings(c.entries), Holdings(c.entries[k := e]);
    UnionPick(h, c.lru, k);
    UnionPick(h', c.lru, k);
    UnionFrame(h, h', Drop(c.lru, {k}));
    rest := Union(h, Drop(c.lru, {k}));
  }

  lemma UnsetWf(c: Cache, k: Key)
    requires Wf(c) && k in c.entries
    ensures Wf(Unset(c, k)) && k in Unset(c, k).entries && Hollow(Unset(c, k).entries[k])
  {
    var c' := Unset(c, k);
    TotalUpdate(c, k, c'.entries[k]);
    assert c.entries[k := c.entries[k]] == c.entries;
    assert EntryOk(c, k);
    forall x | x in c'.entries ensures EntryOk(c', x) {
      assert EntryOk(c, x);
    }
  }

  lemma UnsetAccounts(c: Cache, k: Key)
    requires Wf(c) && k in c.entries
    ensures Accounted(Unset(c, k)) == Accounted(c)
  {
    hide Union, Drop, NoDup, Total, Weights, Holds;
    var c' := Unset(c, k);
    assert c.entries[k := c.entries[k]] == c.entries;
    assert EntryOk(c, k);
    if !Hollow(c.entries[k]) {
      var rest := UnionUpdate(c, k, c'.entries[k]);
      Shuffle(Holds(c.entries[k]), rest, c.released);
      HoldsGiven(c.entries[k]);
      NothingPlus(rest);
    }
  }

  lemma HoldsGiven(e: Entry)
    requires !Hollow(e) && (e.value.None? || e.uncommitted.None?)
    ensures Holds(e) == multiset{Given(e)} && Holds(Emptied(e)) == multiset{}
  {
  }

  lemma NothingPlus(b: Bag)
    ensures multiset{} + b == b
  {
  }

  lemma TouchWf(c: Cache, k: Key)
    requires Wf(c) && k in c.entries
    ensures Wf(Touch(c, k))
  {
    var w := Weights(c.overhead, c.entries);
    var rest := Drop(c.lru, {k});
    TotalPick(w, c.lru, k);
    TotalConcat(w, [k], rest);
    assert Total(w, [k]) == w(k);
    DropNoDup(c.lru, {k});
    var c' := Touch(c, k);
    forall x | x in c'.entries ensures EntryOk(c', x) {
      assert EntryOk(c, x);
    }
  }

  lemma TouchAccounts(c: Cache, k: Key)
    requires Wf(c) && k in c.entries
    ensures Accounted(Touch(c, k)) == Accounted(c)
  {
    var h := Holdings(c.entries);
    UnionPick(h, c.lru, k);
    UnionConcat(h, [k], Drop(c.lru, {k}));
    UnionOne(h, k);
  }

  // ----- entries disappear

  lemma DeleteAllWf(c: Cache, ks: set<Key>)
    requires Wf(c)
    ensures Wf(DeleteAll(c, ks))
  {
    var w := Weights(c.overhead, c.entries);
    TotalSplit(w, c.lru, ks);
    DropNoDup(c.lru, ks);
    var c' := DeleteAll(c, ks);
    TotalFrame(w, Weights(c.overhead, c'.entries), c'.lru);
    forall x | x in c'.entries ensures EntryOk(c', x) {
      assert EntryOk(c, x);
    }
  }

  lemma DeleteAllAccounts(c: Cache, ks: set<Key>)
    requires Wf(c)
    ensures Accounted(DeleteAll(c, ks)) == Accounted(c)
  {
    var h := Holdings(c.entries);
    var c' := DeleteAll(c, ks);
    UnionSplit(h, c.lru, ks);
    UnionFrame(h, Holdings(c'.entries), c'.lru);
    Shuffle(Union(h, Keep(c.lru, ks)), Union(h, c'.lru), c.released);
  }

  lemma DeleteTwiceTotal(c: Cache, a: set<Key>, b: set<Key>)
    ensures DeleteAll(DeleteAll(c, a), b).currentSize == DeleteAll(c, a + b).currentSize
  {
    var w, m := Weights(c.overhead, c.entries), DeleteAll(c, a).entries;
    TotalFrame(w, Weights(c.overhead, m), Keep(Drop(c.lru, a), b));
    TotalTwice(w, c.lru, a, b);
  }

  lemma DeleteTwiceReleased(c: Cache, a: set<Key>, b: set<Key>)
    ensures DeleteAll(DeleteAll(c, a), b).released == DeleteAll(c, a + b).released
  {
    var h, m := Holdings(c.entries), DeleteAll(c, a).entries;
    UnionFrame(h, Holdings(m), Keep(Drop(c.lru, a), b));
    UnionTwice(h, c.lru, a, b);
    Assoc(c.released, Union(h, Keep(c.lru, a)), Union(h, Keep(Drop(c.lru, a), b)));
  }

  /** Deleting in two rounds is deleting the union: the search order does not matter. */
  lemma DeleteAllTwice(c: Cache, a: set<Key>, b: set<Key>)
    ensures DeleteAll(DeleteAll(c, a), b) == DeleteAll(c, a + b)
  {
    DeleteTwiceTotal(c, a, b);
    DeleteTwiceReleased(c, a, b);
    DropTwice(c.lru, a, b);
    assert c.entries - a - b == c.entries - (a + b);
    assert c.pending - a - b == c.pending - (a + b);
  }

  lemma Assoc(a: Bag, b: Bag, c: Bag)
    ensures a + b + c == a + (b + c)
  {
  }

  /** What Ns_CacheDeleteEntry subtracts and releases for the one entry it removes. */
  lemma DeleteOne(c: Cache, k: Key)
    requires Wf(c) && k in c.entries
    ensures var e := c.entries[k];
            Delete(c, k) == c.(
              entries := c.entries - {k},
              lru := Drop(c.lru, {k}),
              pending := c.pending - {k},
              currentSize := c.currentSize - (c.overhead + |k.name| + e.size),
              released := c.released + Holds(e))
  {
    TotalPick(Weights(c.overhead, c.entries), c.lru, k);
    UnionPick(Holdings(c.entries), c.lru, k);
  }

  /** Ns_CacheDeleteEntry step by step: uncharge the key, unset the value, forget the entry. */
  lemma DeleteBySteps(c: Cache, k: Key)
    requires Wf(c) && k in c.entries
    ensures var c1 := Unset(c.(currentSize := c.currentSize - (c.overhead + |k.name|)), k);
            Delete(c, k) == Forget(c1, k)
  {
    hide DeleteAll, Drop, Delete, NoDup;
    DeleteOne(c, k);
    assert EntryOk(c, k);
    var e := c.entries[k];
    assert Holds(e) == if Hollow(e) then multiset{} else multiset{Given(e)};
    assert c.entries[k := Emptied(e)] - {k} == c.entries - {k};
  }

  // ----- create, store, prune, commit

  lemma CreateNewTotal(c: Cache, k: Key, now: Time)
    requires Wf(c) && k !in c.entries
    ensures var c' := Create(c, k, now).0;
            c'.currentSize == Total(Weights(c.overhead, c'.entries), c'.lru)
  {
    hide EntryOk, NoDup;
    var c' := Create(c, k, now).0;
    TotalFrame(Weights(c.overhead, c.entries), Weights(c.overhead, c'.entries), c.lru);
    assert c'.lru[1..] == c.lru;
  }

  lemma CreateNewWf(c: Cache, k: Key, now: Time)
    requires Wf(c) && k !in c.entries
    ensures Wf(Create(c, k, now).0)
  {
    hide Total, Weights;
    CreateNewTotal(c, k, now);
    var c' := Create(c, k, now).0;
    forall x | x in c'.entries ensures EntryOk(c', x) {
      if x != k {
        assert EntryOk(c, x);
      }
    }
  }

  lemma CreateNewAccounts(c: Cache, k: Key, now: Time)
    requires Wf(c) && k !in c.entries
    ensures Accounted(Create(c, k, now).0) == Accounted(c)
  {
    var c' := Create(c, k, now).0;
    UnionFrame(Holdings(c.entries), Holdings(c'.entries), c.lru);
    assert c'.lru[1..] == c.lru;
  }

  lemma CreateWf(c: Cache, k: Key, now: Time)
    requires Wf(c)
    ensures var (c', isNew) := Create(c, k, now);
            && Wf(c') && Accounted(c') == Accounted(c)
            && k in c'.entries && c'.lru[0] == k && (isNew ==> Hollow(c'.entries[k]))
  {
    hide Accounted;
    if k !in c.entries {
      CreateNewWf(c, k, now);
      CreateNewAccounts(c, k, now);
    } else if Expired(c.entries[k], now) {
      UnsetWf(c, k);
      UnsetAccounts(c, k);
      TouchWf(Unset(c, k), k);
      TouchAccounts(Unset(c, k), k);
    } else {
      TouchWf(c, k);
      TouchAccounts(c, k);
    }
  }

  lemma StoreWf(c: Cache, k: Key, v: Value, size: nat, timeout: Option<Time>, epoch: nat)
    requires Wf(c) && k in c.entries && Hollow(c.entries[k])
    ensures Wf(Store(c, k, v, size, timeout, epoch))
  {
    var c' := Store(c, k, v, size, timeout, epoch);
    TotalUpdate(c, k, c'.entries[k]);
    assert EntryOk(c, k);
    forall x | x in c'.entries ensures EntryOk(c', x) {
      assert EntryOk(c, x);
    }
  }

  lemma StoreAccounts(c: Cache, k: Key, v: Value, size: nat, timeout: Option<Time>, epoch: nat)
    requires Wf(c) && k in c.entries && Hollow(c.entries[k])
    ensures Accounted(Store(c, k, v, size, timeout, epoch)) == Accounted(c) + multiset{v}
  {
    var c' := Store(c, k, v, size, timeout, epoch);
    var rest := UnionUpdate(c, k, c'.entries[k]);
    assert Holds(c.entries[k]) + rest == rest;
    assert Holds(c'.entries[k]) == multiset{v};
    Shuffle(multiset{v}, rest, c.released);
    Assoc(rest, c.released, multiset{v});
  }

  lemma DeleteWf(c: Cache, k: Key)
    requires Wf(c)
    ensures Wf(Delete(c, k)) && Accounted(Delete(c, k)) == Accounted(c)
  {
    hide Wf, Accounted;
    DeleteAllWf(c, {k});
    DeleteAllAccounts(c, {k});
  }

  lemma FindWf(c: Cache, k: Key, stack: seq<nat>, now: Time)
    requires Wf(c)
    ensures Wf(Find(c, k, stack, now).0)
    ensures Accounted(Find(c, k, stack, now).0) == Accounted(c)
  {
    hide Wf, Accounted, DeleteAll, Touch;
    if k !in c.entries || (c.entries[k].value.None? && stack == []) {
    } else if Expired(c.entries[k], now) {
      DeleteWf(c, k);
    } else if Visible(c.entries[k], stack).Some? {
      TouchWf(c, k);
      TouchAccounts(c, k);
    }
  }

  /** Deleting the keys from position `n` on leaves the first `n` keys. */
  lemma DropTail(ks: seq<Key>, n: nat)
    requires NoDup(ks) && n <= |ks|
    ensures Drop(ks, Tail(ks, n)) == ks[..n]
  {
    var a, b := ks[..n], ks[n..];
    assert ks == a + b;
    DropConcat(a, b, Tail(ks, n));
    DropNothing(a, Tail(ks, n));
    DropEverything(b, Tail(ks, n));
  }

  /** The cache while the first `m` keys of the list are left: the loop tests `MustPrune`. */
  lemma PruneAt(c: Cache, m: nat)
    requires Wf(c) && 0 < m <= |c.lru|
    ensures var c' := DeleteAll(c, Tail(c.lru, m)); var l := c.lru[m - 1];
            && Wf(c') && c'.lru == c.lru[..m] && c'.lru[|c'.lru| - 1] == l
            && c'.currentSize == Total(Weights(c.overhead, c.entries), c.lru[..m])
            && l in c.entries && l in c'.entries && c'.entries[l] == c.entries[l]
  {
    hide DeleteAll, Tail, Drop, EntryOk, Total, Weights;
    var c' := DeleteAll(c, Tail(c.lru, m));
    DeleteAllWf(c, Tail(c.lru, m));
    DropTail(c.lru, m);
    DeleteAllList(c, Tail(c.lru, m));
    PruneFrame(c, m);
    assert c.lru[..m][m - 1] == c.lru[m - 1];
  }

  lemma DeleteAllList(c: Cache, ks: set<Key>)
    ensures DeleteAll(c, ks).lru == Drop(c.lru, ks) && DeleteAll(c, ks).overhead == c.overhead
  {
  }

  lemma PruneFrame(c: Cache, m: nat)
    requires Wf(c) && m <= |c.lru|
    ensures var c' := DeleteAll(c, Tail(c.lru, m));
            && Total(Weights(c.overhead, c'.entries), c.lru[..m]) == Total(Weights(c.overhead, c.entries), c.lru[..m])
            && forall x :: x in c.lru[..m] ==> x in c'.entries && c'.entries[x] == c.entries[x]
  {
    hide EntryOk;
    var c' := DeleteAll(c, Tail(c.lru, m));
    forall x | x in c.lru[..m] ensures x !in Tail(c.lru, m) && x in c.entries {
      var i :| 0 <= i < m && c.lru[i] == x;
    }
    TotalFrame(Weights(c.overhead, c'.entries), Weights(c.overhead, c.entries), c.lru[..m]);
  }

  /** Deleting the last of the first `m` keys leaves the first `m - 1`. */
  lemma PruneOne(c: Cache, m: nat)
    requires 0 < m <= |c.lru|
    ensures Delete(DeleteAll(c, Tail(c.lru, m)), c.lru[m - 1]) == DeleteAll(c, Tail(c.lru, m - 1))
  {
    hide DeleteAll;
    assert Tail(c.lru, m - 1) == Tail(c.lru, m) + {c.lru[m - 1]} by {
      assert c.lru[m - 1..] == [c.lru[m - 1]] + c.lru[m..];
    }
    DeleteAllTwice(c, Tail(c.lru, m), {c.lru[m - 1]});
  }

  lemma DeleteNothing(c: Cache)
    ensures DeleteAll(c, {}) == c && Tail(c.lru, |c.lru|) == {}
  {
    DropNothing(c.lru, {});
    KeepNothing(c.lru, {});
    assert c.entries - {} == c.entries;
  }

  lemma {:induction false} FitIs(c: Cache, k: Key, limit: nat, m: nat, n: nat)
    requires n <= m <= |c.lru| && !MustPrune(c, k, limit, n)
    requires forall j :: n < j <= m ==> MustPrune(c, k, limit, j)
    ensures Fit(c, k, limit, m) == n
  {
    hide MustPrune;
    if n < m {
      FitIs(c, k, limit, m - 1, n);
    }
  }

  /** The pruning loop has got from `c` to `v`, with the first `m` keys left. */
  ghost predicate Pruning(c: Cache, v: Cache, k: Key, limit: nat, m: nat) {
    && 0 < m <= |c.lru| && k in c.lru[..m]
    && v == DeleteAll(c, Tail(c.lru, m))
    && forall j :: m < j <= |c.lru| ==> MustPrune(c, k, limit, j)
  }

  /** The test of the pruning loop. */
  ghost predicate PruneTest(v: Cache, k: Key, limit: nat, l: Key) {
    v.currentSize > limit && l != k && l in v.entries && v.entries[l].value.Some?
  }

  lemma PruningStart(c: Cache, k: Key, limit: nat)
    requires Wf(c) && k in c.lru
    ensures Pruning(c, c, k, limit, |c.lru|)
  {
    DeleteNothing(c);
    assert c.lru[..|c.lru|] == c.lru;
  }

  lemma PruningFacts(c: Cache, v: Cache, k: Key, limit: nat, m: nat)
    requires Wf(c) && Pruning(c, v, k, limit, m) && limit > 0
    ensures Wf(v) && v.lru != [] && v.lru[|v.lru| - 1] == c.lru[m - 1]
    ensures PruneTest(v, k, limit, c.lru[m - 1]) <==> MustPrune(c, k, limit, m)
  {
    hide Wf, DeleteAll, Tail, Drop, Total;
    PruneAt(c, m);
  }

  lemma PruningStep(c: Cache, v: Cache, k: Key, limit: nat, m: nat)
    requires Wf(c) && Pruning(c, v, k, limit, m) && MustPrune(c, k, limit, m)
    ensures m > 1 && Pruning(c, Delete(v, c.lru[m - 1]), k, limit, m - 1)
  {
    hide Wf, DeleteAll, Tail, Drop, Total, Delete;
    PruneOne(c, m);
    assert c.lru[..m] == c.lru[..m - 1] + [c.lru[m - 1]];
  }

  lemma PruningEnd(c: Cache, v: Cache, k: Key, limit: nat, m: nat)
    requires Pruning(c, v, k, limit, m) && !MustPrune(c, k, limit, m)
    ensures v == Prune(c, k, limit)
  {
    hide DeleteAll, Tail, MustPrune;
    FitIs(c, k, limit, |c.lru|, m);
  }

  lemma MaxSizeWf(c: Cache, limit: nat)
    requires Wf(c)
    ensures Wf(c.(maxSize := limit)) && Accounted(c.(maxSize := limit)) == Accounted(c)
  {
    assert forall x | x in c.entries :: EntryOk(c, x) ==> EntryOk(c.(maxSize := limit), x);
  }

  lemma SetWf(c: Cache, k: Key, v: Value, size: nat, timeout: Option<Time>, maxSize: nat, epoch: nat)
    requires Wf(c) && k in c.entries
    ensures Wf(Set(c, k, v, size, timeout, maxSize, epoch))
    ensures Accounted(Set(c, k, v, size, timeout, maxSize, epoch)) == Accounted(c) + multiset{v}
  {
    hide Wf, DeleteAll, Accounted;
    UnsetWf(c, k);
    UnsetAccounts(c, k);
    StoreWf(Unset(c, k), k, v, size, timeout, epoch);
    StoreAccounts(Unset(c, k), k, v, size, timeout, epoch);
    var limit := if maxSize == 0 then c.maxSize else maxSize;
    var c1 := Store(Unset(c, k), k, v, size, timeout, epoch);
    MaxSizeWf(c1, limit);
    var c2 := c1.(maxSize := limit);
    DeleteAllWf(c2, Tail(c2.lru, Fit(c2, k, limit, |c2.lru|)));
    DeleteAllAccounts(c2, Tail(c2.lru, Fit(c2, k, limit, |c2.lru|)));
  }

  /** Ns_CacheSetValueExpires is storing, and pruning to the limit it determines. */
  lemma SetIsPrune(c: Cache, k: Key, v: Value, size: nat, timeout: Option<Time>, max: nat, epoch: nat, c2: Cache)
    requires k in c.entries && k in Unset(c, k).entries
    requires var limit := if max == 0 then c.maxSize else max;
             c2 == Store(Unset(c, k), k, v, size, timeout, epoch).(maxSize := limit)
    ensures Set(c, k, v, size, timeout, max, epoch) == Prune(c2, k, if max == 0 then c.maxSize else max)
  {
    hide Unset, Store, Prune;
  }

  lemma CommitAllWf(c: Cache, epoch: nat, done: set<Key>)
    requires Wf(c) && done <= Tagged(c, epoch)
    ensures Wf(CommitAll(c, done))
  {
    hide Drop, NoDup;
    var c' := CommitAll(c, done);
    assert c'.entries.Keys == c.entries.Keys;
    TotalFrame(Weights(c.overhead, c.entries), Weights(c.overhead, c'.entries), c.lru);
    forall x | x in c'.entries ensures EntryOk(c', x) {
      assert EntryOk(c, x);
    }
  }

  lemma CommitWf(c: Cache, epoch: nat)
    requires Wf(c)
    ensures Wf(Commit(c, epoch))
  {
    hide Wf, CommitAll;
    CommitAllWf(c, epoch, Tagged(c, epoch));
  }

  lemma CommitAccounts(c: Cache, epoch: nat)
    requires Wf(c)
    ensures Accounted(Commit(c, epoch)) == Accounted(c)
  {
    var c' := Commit(c, epoch);
    forall k | k in c.lru ensures Holds(c'.entries[k]) == Holds(c.entries[k]) {
      assert EntryOk(c, k);
    }
    UnionFrame(Holdings(c.entries), Holdings(c'.entries), c.lru);
  }

  /** Committing one more entry. */
  lemma CommitOne(c: Cache, done: set<Key>, k: Key)
    requires k in c.entries && k !in done
    ensures var c1 := CommitAll(c, done);
            && k in c1.entries && c1.entries[k] == c.entries[k]
            && CommitAll(c, done + {k})
               == c1.(entries := c1.entries[k := Published(c.entries[k])], pending := c1.pending - {k})
  {
    var c1, c2 := CommitAll(c, done), CommitAll(c, done + {k});
    assert c2.entries == c1.entries[k := Published(c.entries[k])];
    assert c2.pending == c1.pending - {k};
  }

  lemma CommitNothing(c: Cache)
    ensures CommitAll(c, {}) == c
  {
    assert CommitAll(c, {}).entries == c.entries;
  }

  /** An entry that is neither deleted nor committed stays as it is. */
  lemma Untouched(c: Cache, ks: set<Key>, k: Key)
    requires Wf(c) && k in c.pending && k !in ks
    ensures var d, e := DeleteAll(c, ks), CommitAll(c, ks);
            && k in c.entries && k in d.entries && k in e.entries
            && d.entries[k] == e.entries[k] == c.entries[k]
  {
  }

  lemma PruneNoLimit(c: Cache, k: Key)
    ensures Prune(c, k, 0) == c
  {
    DeleteNothing(c);
    assert Fit(c, k, 0, |c.lru|) == |c.lru|;
  }

  /** The cache after CacheTransaction has dealt with the entries in `ks`. */
  ghost function Settled(c: Cache, ks: set<Key>, commit: bool): Cache {
    if commit then CommitAll(c, ks) else DeleteAll(c, ks)
  }

  /** The pending entry the search meets next is still as it was; its fields tell whether it is tagged. */
  lemma SettledNext(c: Cache, ks: set<Key>, commit: bool, epoch: nat, k: Key)
    requires Wf(c) && k in c.pending && k !in ks
    ensures var v := Settled(c, ks, commit);
            && k in v.entries
            && (k in Tagged(c, epoch) <==> v.entries[k].value.None? && v.entries[k].epoch == epoch)
  {
    hide EntryOk, Drop, NoDup;
    Untouched(c, ks, k);
  }

  lemma SettledNothing(c: Cache, commit: bool)
    ensures Settled(c, {}, commit) == c
  {
    DeleteNothing(c);
    CommitNothing(c);
  }

  lemma TaggedPending(c: Cache, epoch: nat)
    ensures Tagged(c, epoch) <= c.pending
  {
  }

  lemma SettledAll(c: Cache, epoch: nat, commit: bool)
    ensures Settled(c, Tagged(c, epoch), commit) == if commit then Commit(c, epoch) else Rollback(c, epoch)
  {
  }

  /** The entries outside a deleted set are still there, unchanged. */
  lemma StillThere(c: Cache, ks: set<Key>)
    ensures DeleteAll(c, ks).entries == c.entries - ks
  {
  }

  lemma SeenBounds(c: Cache, stack: seq<nat>, now: Time)
    ensures SeenExpired(c, stack, now) <= Seen(c, stack) <= c.entries.Keys
  {
  }

  /** Deleting entries changes what a search sees by just those entries. */
  lemma SeenAfter(c: Cache, ks: set<Key>, stack: seq<nat>, now: Time)
    ensures Seen(DeleteAll(c, ks), stack) == Seen(c, stack) - ks
    ensures SeenExpired(DeleteAll(c, ks), stack, now) == SeenExpired(c, stack, now) - ks
  {
  }

  /** Bookkeeping of Ns_CacheFlush: what is gone is what the search has met and seen. */
  lemma FlushSets(keys: set<Key>, was: set<Key>, todo: set<Key>, gone: set<Key>, seen: set<Key>, expired: set<Key>,
                  found: Option<Key>)
    requires gone == (keys - was) * seen && todo <= was <= keys && expired <= seen
    requires found.Some? ==> found.value in was && found.value !in todo && found.value !in expired
    requires forall x :: x in was - todo && x in seen - gone ==> found == Some(x) || x in expired - gone
    ensures gone + (was - todo) * (expired - gone)
         == (keys - todo - (if found.Some? then {found.value} else {})) * seen
    ensures gone + (was - todo) * (expired - gone) - expired == gone - expired
    ensures found.Some? ==> |todo| < |was|
    ensures |todo| <= |was|
  {
    assert |was - todo| == |was| - |todo|;
    if found.Some? {
      assert was - todo == {found.value} + (was - todo - {found.value});
    }
  }

  lemma FlushCounts(keys: set<Key>, todo: set<Key>, gone: set<Key>, seen: set<Key>, expired: set<Key>, k: Key)
    requires gone == (keys - todo - {k}) * seen && k in keys && k in seen - expired && k !in todo
    ensures gone + {k} == (keys - todo) * seen
    ensures |gone + {k} - expired| == |gone - expired| + 1
  {
    assert gone + {k} - expired == (gone - expired) + {k};
  }
}
