/**
 * The cache of nsd/cache.c as an object updated in place: a hash table of entries that are
 * also the nodes of a doubly linked recency list, a table of pending entries and a byte
 * counter.  An entry's address is represented by its key, since at most one live entry has
 * a key; its link fields are kept in `links` and its other fields in `data`.
 *
 * Every method is proved to do to the abstract cache `View()` what the function it is
 * named after in `CacheSpec` does.
 */
module CacheImpl {
  import opened Prelude
  import opened Tallies
  import S = CacheSpec
  import L = CacheLaws

  type Key = S.Key

  /** The link fields of an entry. */
  datatype Link = Link(prev: Option<Key>, next: Option<Key>)

  /** Position `i` of the list has the right links. */
  ghost predicate LinkOk(links: map<Key, Link>, list: seq<Key>, i: nat)
    requires i < |list|
  {
    && list[i] in links
    && links[list[i]].prev == (if i == 0 then None else Some(list[i - 1]))
    && links[list[i]].next == (if i == |list| - 1 then None else Some(list[i + 1]))
  }

  /** `links`, `first` and `last` describe the sequence `list`. */
  ghost predicate Linked(links: map<Key, Link>, first: Option<Key>, last: Option<Key>, list: seq<Key>) {
    && NoDup(list)
    && first == (if list == [] then None else Some(list[0]))
    && last == (if list == [] then None else Some(list[|list| - 1]))
    && forall i {:trigger LinkOk(links, list, i)} :: 0 <= i < |list| ==> LinkOk(links, list, i)
  }

  /** Bypassing position `i` leaves the right links at every other position. */
  lemma Bypass(links: map<Key, Link>, links': map<Key, Link>, was: seq<Key>, list: seq<Key>, i: nat, j: nat)
    requires NoDup(was) && i < |was| && list == was[..i] + was[i + 1..] && j < |list|
    requires LinkOk(links, was, i) && LinkOk(links, was, if j < i then j else j + 1)
    requires was[if j < i then j else j + 1] in links'
    requires var m := if j < i then j else j + 1;
             && links'[was[m]].next == (if m == i - 1 then links[was[i]].next else links[was[m]].next)
             && links'[was[m]].prev == (if m == i + 1 then links[was[i]].prev else links[was[m]].prev)
    ensures LinkOk(links', list, j)
  {
    var m := if j < i then j else j + 1;
    assert list[j] == was[m];
    if j > 0 {
      assert list[j - 1] == was[if j - 1 < i then j - 1 else j];
    }
    if j < |list| - 1 {
      assert list[j + 1] == was[if j + 1 < i then j + 1 else j + 2];
    }
  }

  /** The links after both neighbours of `k` are made to bypass it. */
  ghost function Bypassed(links: map<Key, Link>, k: Key): map<Key, Link>
    requires k in links
  {
    var l := links[k];
    var a := if l.prev.Some? && l.prev.value in links
             then links[l.prev.value := links[l.prev.value].(next := l.next)] else links;
    var b := if l.next.Some? && l.next.value in a
             then a[l.next.value := a[l.next.value].(prev := l.prev)] else a;
    b[k := Link(None, None)]
  }

  lemma BypassLinked(links: map<Key, Link>, first: Option<Key>, last: Option<Key>, was: seq<Key>, i: nat)
    requires Linked(links, first, last, was) && i < |was| && was[i] in links
    ensures var l := links[was[i]];
            && (l.prev.Some? ==> l.prev.value in links) && (l.next.Some? ==> l.next.value in links)
            && Linked(Bypassed(links, was[i]), if l.prev.Some? then first else l.next,
                      if l.next.Some? then last else l.prev, was[..i] + was[i + 1..])
  {
    var list := was[..i] + was[i + 1..];
    var links' := Bypassed(links, was[i]);
    assert LinkOk(links, was, i);
    assert i > 0 ==> LinkOk(links, was, i - 1);
    assert i < |was| - 1 ==> LinkOk(links, was, i + 1);
    forall j | 0 <= j < |list| ensures LinkOk(links', list, j) {
      var m := if j < i then j else j + 1;
      assert LinkOk(links, was, m);
      assert was[m] != was[i] && (m != i - 1 ==> i > 0 ==> was[m] != was[i - 1])
          && (m != i + 1 ==> i < |was| - 1 ==> was[m] != was[i + 1]);
      Bypass(links, links', was, list, i, j);
    }
  }

  /** The links of an entry outside the list do not matter. */
  lemma LinkedWithout(links: map<Key, Link>, first: Option<Key>, last: Option<Key>, list: seq<Key>, k: Key)
    requires Linked(links, first, last, list) && k !in list
    ensures Linked(links - {k}, first, last, list)
  {
    forall i | 0 <= i < |list| ensures LinkOk(links - {k}, list, i) {
      assert LinkOk(links, list, i);
    }
  }

  lemma LinkedWith(links: map<Key, Link>, first: Option<Key>, last: Option<Key>, list: seq<Key>, k: Key)
    requires Linked(links, first, last, list) && k !in list
    ensures Linked(links[k := Link(None, None)], first, last, list)
  {
    var links' := links[k := Link(None, None)];
    forall i | 0 <= i < |list| ensures LinkOk(links', list, i) {
      assert LinkOk(links, list, i);
    }
  }

  class Cache {
    const overhead: nat
    var maxSize: nat
    var currentSize: nat
    var first: Option<Key>
    var last: Option<Key>
    var links: map<Key, Link>
    var data: map<Key, S.Entry>
    var pending: set<Key>
    ghost var list: seq<Key>
    ghost var released: Bag

    ghost function View(): S.Cache
      reads this
    {
      S.Cache(overhead, maxSize, currentSize, list, data, pending, released)
    }

    ghost predicate Valid()
      reads this
    {
      Linked(links, first, last, list) && links.Keys == data.Keys && S.Wf(View())
    }

    /** Ns_CacheCreateSz. */
    constructor (overhead: nat, maxSize: nat)
      ensures Valid() && View() == S.Empty(overhead, maxSize)
    {
      this.overhead, this.maxSize, this.currentSize := overhead, maxSize, 0;
      first, last, links, data, pending := None, None, map[], map[], {};
      list, released := [], multiset{};
    }

    /** Remove: unlink an entry from the recency list. */
    method Remove(k: Key)
      requires Linked(links, first, last, list) && k in list
      modifies `first, `last, `links, `list
      ensures Linked(links, first, last, list) && list == Drop(old(list), {k})
      ensures links.Keys == old(links).Keys
    {
      hide Drop;
      ghost var i :| 0 <= i < |list| && list[i] == k;
      assert LinkOk(links, list, i);
      DropAt(list, i);
      BypassLinked(links, first, last, list, i);
      var l := links[k];
      if l.prev.Some? {
        links := links[l.prev.value := links[l.prev.value].(next := l.next)];
      } else {
        first := l.next;
      }
      if l.next.Some? {
        links := links[l.next.value := links[l.next.value].(prev := l.prev)];
      } else {
        last := l.prev;
      }
      links := links[k := Link(None, None)];
      list := Drop(list, {k});
    }

    /** Push: make an entry the most recently used one. */
    method Push(k: Key)
      requires Linked(links, first, last, list) && k !in list && k in links
      modifies `first, `last, `links, `list
      ensures Linked(links, first, last, list) && list == [k] + old(list)
      ensures links.Keys == old(links).Keys
    {
      ghost var was, before := list, links;
      assert was != [] ==> LinkOk(before, was, 0);
      if first.Some? {
        links := links[first.value := links[first.value].(prev := Some(k))];
      }
      links := links[k := Link(None, first)];
      first := Some(k);
      if last.None? {
        last := Some(k);
      }
      list := [k] + list;
      forall j | 0 <= j < |list| ensures LinkOk(links, list, j) {
        if j > 0 {
          assert list[j] == was[j - 1] && LinkOk(before, was, j - 1);
        }
      }
    }

    /** What the invariant says about one entry: in particular the byte counter cannot wrap around. */
    lemma EntryFacts(k: Key)
      requires Valid() && k in data
      ensures k in list && S.EntryOk(View(), k)
      ensures overhead + |k.name| + data[k].size <= currentSize
    {
      var w := S.Weights(overhead, data);
      assert k in View().entries;
      TotalPick(w, list, k);
      TotalNonNegative(w, Drop(list, {k}));
    }

    /** Ns_CacheGetValueT. */
    method GetValue(k: Key, stack: seq<nat>) returns (r: Option<Value>)
      requires k in data
      ensures r == S.Visible(data[k], stack)
    {
      if data[k].value.Some? {
        r := data[k].value;
      } else {
        r := None;
        var i := 0;
        while i < |stack|
          invariant 0 <= i <= |stack|
          invariant data[k].epoch !in stack[..i] && r == None
        {
          if data[k].epoch == stack[i] {
            r := data[k].uncommitted;
            return;
          }
          i := i + 1;
        }
        assert stack[..i] == stack;
      }
    }

    /** Ns_CacheUnsetValue. */
    method UnsetValue(k: Key)
      requires k in data && data[k].size <= currentSize
      modifies `data, `currentSize, `released
      ensures View() == S.Unset(old(View()), k) && data.Keys == old(data).Keys
    {
      var e := data[k];
      if e.value.Some? || e.uncommitted.Some? {
        var value;
        if e.value.Some? {
          value := e.value.value;
          e := e.(value := None);
        } else {
          value := e.uncommitted.value;
          e := e.(uncommitted := None);
        }
        currentSize := currentSize - e.size;
        data := data[k := e.(size := 0, expires := S.NEVER)];
        released := released + multiset{value};
      }
    }

    /** The part of Ns_CacheDeleteEntry that takes the entry out of list and tables. */
    method ForgetEntry(k: Key)
      requires Linked(links, first, last, list) && k in list && links.Keys == data.Keys
      modifies `first, `last, `links, `list, `data, `pending
      ensures Linked(links, first, last, list) && links.Keys == data.Keys
      ensures View() == S.Forget(old(View()), k)
    {
      hide LinkOk, Drop, NoDup;
      Remove(k);
      LinkedWithout(links, first, last, list, k);
      links := links - {k};
      data := data - {k};
      pending := pending - {k};
    }

    /** Ns_CacheDeleteEntry. */
    method DeleteEntry(k: Key)
      requires Valid() && k in data
      modifies this
      ensures Valid() && View() == S.Delete(old(View()), k)
    {
      hide S.Wf, S.Delete, S.Unset, S.Forget, S.EntryOk, Linked;
      EntryFacts(k);
      L.DeleteBySteps(View(), k);
      L.DeleteWf(View(), k);
      ghost var c := View();
      currentSize := currentSize - (overhead + |k.name|);
      assert View() == c.(currentSize := c.currentSize - (c.overhead + |k.name|));
      UnsetValue(k);
      ForgetEntry(k);
    }

    /** Remove followed by Push. */
    method MoveToFront(k: Key)
      requires Valid() && k in data
      modifies `first, `last, `links, `list
      ensures Valid() && View() == S.Touch(old(View()), k)
    {
      hide S.Wf, LinkOk, Drop, NoDup;
      EntryFacts(k);
      L.TouchWf(View(), k);
      ghost var c := View();
      Remove(k);
      Push(k);
      assert list == S.Touch(c, k).lru;
    }

    /** Ns_CacheFindEntryT: `found` is false where the original returns no entry. */
    method FindEntry(k: Key, stack: seq<nat>, now: S.Time) returns (found: bool)
      requires Valid()
      modifies this
      ensures Valid() && (View(), found) == S.Find(old(View()), k, stack, now)
    {
      hide S.Wf, S.Delete, S.Touch, Linked;
      found := false;
      if k in data {
        if data[k].value.None? && |stack| == 0 {
        } else if S.Expired(data[k], now) {
          DeleteEntry(k);
        } else {
          var value := GetValue(k, stack);
          if value.Some? {
            MoveToFront(k);
            found := true;
          }
        }
      }
    }

    /** The allocation of a new entry in Ns_CacheCreateEntry. */
    method AddEntry(k: Key)
      requires Linked(links, first, last, list) && links.Keys == data.Keys && k !in list
      modifies `first, `last, `links, `list, `data, `currentSize
      ensures Linked(links, first, last, list) && links.Keys == data.Keys
      ensures View() == old(View()).(lru := [k] + old(list), entries := old(data)[k := S.NEWBORN],
                                     currentSize := old(currentSize) + overhead + |k.name|)
    {
      hide LinkOk, NoDup;
      LinkedWith(links, first, last, list, k);
      links := links[k := Link(None, None)];
      data := data[k := S.NEWBORN];
      currentSize := currentSize + overhead + |k.name|;
      Push(k);
    }

    /** Ns_CacheCreateEntry. */
    method CreateEntry(k: Key, now: S.Time) returns (isNew: bool)
      requires Valid()
      modifies this
      ensures Valid() && (View(), isNew) == S.Create(old(View()), k, now) && k in data
    {
      hide S.Wf, S.Unset, S.Touch, Drop, NoDup, LinkOk;
      L.CreateWf(View(), k, now);
      isNew := k !in data;
      if isNew {
        NotListed(k);
        AddEntry(k);
      } else {
        if S.Expired(data[k], now) {
          EntryFacts(k);
          L.UnsetWf(View(), k);
          UnsetValue(k);
          isNew := true;
        }
        MoveToFront(k);
      }
    }

    lemma NotListed(k: Key)
      requires Valid() && k !in data
      ensures k !in list
    {
      assert k !in View().entries;
    }


    lemma LastIs()
      requires Valid() && list != []
      ensures last == Some(list[|list| - 1]) && last.value in data
    {
      assert View().lru[|list| - 1] in View().entries;
    }

    /** The pruning loop of Ns_CacheSetValueExpires. */
    method Prune(k: Key, limit: nat)
      requires Valid() && k in data && limit > 0
      modifies this
      ensures Valid() && View() == S.Prune(old(View()), k, limit)
    {
      hide S.Wf, S.Delete, S.Prune, S.MustPrune, Linked, L.Pruning;
      ghost var c := View();
      ghost var m := |list|;
      EntryFacts(k);
      L.PruningStart(c, k, limit);
      L.PruningFacts(c, c, k, limit, m);
      LastIs();
      while currentSize > limit && last.value != k && data[last.value].value.Some?
        invariant Valid() && 0 < m <= |c.lru| && L.Pruning(c, View(), k, limit, m)
        invariant last == Some(c.lru[m - 1]) && last.value in data
        invariant L.PruneTest(View(), k, limit, c.lru[m - 1]) <==> S.MustPrune(c, k, limit, m)
        decreases m
      {
        L.PruningStep(c, View(), k, limit, m);
        DeleteEntry(last.value);
        m := m - 1;
        L.PruningFacts(c, View(), k, limit, m);
        LastIs();
      }
      L.PruningEnd(c, View(), k, limit, m);
    }

    /** The assignments of Ns_CacheSetValueExpires to an entry without a value. */
    method StoreValue(k: Key, v: Value, size: nat, timeout: Option<S.Time>, epoch: nat)
      requires k in data
      modifies `data, `pending, `currentSize
      ensures View() == S.Store(old(View()), k, v, size, timeout, epoch) && data.Keys == old(data).Keys
    {
      var e := data[k];
      if epoch == 0 {
        e := e.(value := Some(v));
      } else {
        e := e.(uncommitted := Some(v), epoch := epoch);
        pending := pending + {k};
      }
      e := e.(size := size);
      if timeout.Some? {
        e := e.(expires := timeout.value);
      }
      data := data[k := e];
      currentSize := currentSize + size;
    }

    /** Ns_CacheSetValueExpires; the result is 1 inside a transaction, 0 outside. */
    method SetValueExpires(k: Key, v: Value, size: nat, timeout: Option<S.Time>, max: nat, epoch: nat)
      returns (uncommitted: int)
      requires Valid() && k in data
      modifies this
      ensures Valid() && View() == S.Set(old(View()), k, v, size, timeout, max, epoch)
      ensures uncommitted == if epoch == 0 then 0 else 1
    {
      hide S.Wf, S.Unset, S.Store, S.Prune, S.Set, S.EntryOk, Linked, Valid;
      ghost var c0 := View();
      var limit := ReplaceValue(k, v, size, timeout, max, epoch);
      uncommitted := if epoch == 0 then 0 else 1;
      ghost var c := View();
      L.SetIsPrune(c0, k, v, size, timeout, max, epoch, c);
      if limit > 0 {
        Prune(k, limit);
      } else {
        L.PruneNoLimit(c, k);
      }
    }

    /** The part before the pruning loop: the new value, and the limit to prune to. */
    method ReplaceValue(k: Key, v: Value, size: nat, timeout: Option<S.Time>, max: nat, epoch: nat) returns (limit: nat)
      requires Valid() && k in data
      modifies this
      ensures Valid() && k in data && S.Wf(View()) && k in list
      ensures limit == (if max == 0 then old(maxSize) else max) && k in S.Unset(old(View()), k).entries
      ensures View() == S.Store(S.Unset(old(View()), k), k, v, size, timeout, epoch).(maxSize := limit)
    {
      hide S.Wf, S.Unset, S.Store, S.EntryOk, Linked;
      EntryFacts(k);
      ghost var c0 := View();
      L.UnsetWf(c0, k);
      L.StoreWf(S.Unset(c0, k), k, v, size, timeout, epoch);
      UnsetValue(k);
      StoreValue(k, v, size, timeout, epoch);
      limit := max;
      if limit == 0 {
        limit := maxSize;
      } else if limit != maxSize {
        maxSize := limit;
      }
      L.MaxSizeWf(S.Store(S.Unset(c0, k), k, v, size, timeout, epoch), limit);
      EntryFacts(k);
    }

    /** The commit branch of CacheTransaction. */
    method CommitEntry(k: Key)
      requires k in data
      modifies `data, `pending
      ensures data == old(data)[k := S.Published(old(data)[k])] && pending == old(pending) - {k}
    {
      data := data[k := data[k].(value := data[k].uncommitted)];
      data := data[k := data[k].(uncommitted := None, epoch := 0)];
      pending := pending - {k};
    }

    /** What CacheTransaction does with one tagged entry. */
    method SettleEntry(k: Key, epoch: nat, commit: bool, ghost c: S.Cache, ghost ks: set<Key>)
      requires Valid() && S.Wf(c) && View() == L.Settled(c, ks, commit)
      requires k in S.Tagged(c, epoch) && k !in ks && ks <= S.Tagged(c, epoch) && k in data
      modifies this
      ensures Valid() && View() == L.Settled(c, ks + {k}, commit)
    {
      hide S.Wf, Linked, S.DeleteAll, S.CommitAll, S.Published;
      if commit {
        L.CommitOne(c, ks, k);
        L.CommitAllWf(c, epoch, ks + {k});
        CommitEntry(k);
      } else {
        L.DeleteAllTwice(c, ks, {k});
        DeleteEntry(k);
      }
    }

    /** CacheTransaction: commit or roll back the pending entries of a transaction. */
    method Transaction(epoch: nat, commit: bool) returns (count: nat)
      requires Valid()
      modifies this
      ensures Valid() && View() == if commit then S.Commit(old(View()), epoch) else S.Rollback(old(View()), epoch)
      ensures count == |S.Tagged(old(View()), epoch)|
    {
      hide S.Wf, Linked, S.DeleteAll, S.CommitAll, S.Tagged, L.Settled;
      ghost var c := View();
      ghost var tagged := S.Tagged(c, epoch);
      L.TaggedPending(c, epoch);
      var todo := pending;
      count := 0;
      assert tagged - todo == {};
      L.SettledNothing(c, commit);
      while todo != {}
        invariant Valid() && todo <= c.pending
        invariant View() == L.Settled(c, tagged - todo, commit)
        invariant count == |tagged - todo|
        decreases |todo|
      {
        var k :| k in todo;
        L.SettledNext(c, tagged - todo, commit, epoch, k);
        ghost var done := tagged - todo;
        todo := todo - {k};
        if data[k].value.None? && data[k].epoch == epoch {
          assert tagged - todo == done + {k};
          SettleEntry(k, epoch, commit, c, done);
          count := count + 1;
        } else {
          assert tagged - todo == done;
        }
      }
      assert tagged - todo == tagged;
      L.SettledAll(c, epoch, commit);
    }

    /**
     * Ns_CacheFirstEntryT and Ns_CacheNextEntryT: go on with a hash search, `todo` being the
     * entries it has not met, up to the first live entry with a visible value.  Expired
     * entries met on the way are deleted, entries without a visible value are skipped.
     */
    method NextEntry(todo: set<Key>, stack: seq<nat>, now: S.Time) returns (found: Option<Key>, rest: set<Key>)
      requires Valid() && todo <= data.Keys
      modifies this
      ensures Valid() && rest <= todo && rest <= data.Keys
      ensures View() == S.DeleteAll(old(View()), (todo - rest) * S.SeenExpired(old(View()), stack, now))
      ensures found.None? ==> rest == {}
      ensures found.Some? ==> && found.value in data && found.value in todo && found.value !in rest
                              && found.value in S.Seen(old(View()), stack)
                              && found.value !in S.SeenExpired(old(View()), stack, now)
      ensures forall x :: x in todo - rest && x in S.Seen(old(View()), stack) ==>
                found == Some(x) || x in S.SeenExpired(old(View()), stack, now)
    {
      hide S.Wf, Linked, S.DeleteAll, S.Visible, S.Expired;
      ghost var c := View();
      ghost var expired := S.SeenExpired(c, stack, now);
      rest := todo;
      found := None;
      assert (todo - rest) * expired == {};
      L.DeleteNothing(c);
      while rest != {}
        invariant Valid() && rest <= todo
        invariant View() == S.DeleteAll(c, (todo - rest) * expired)
        invariant forall x :: x in todo - rest && x in S.Seen(c, stack) ==> x in expired
        decreases |rest|
      {
        var k :| k in rest;
        ghost var gone := (todo - rest) * expired;
        L.StillThere(c, gone);
        rest := rest - {k};
        var value := GetValue(k, stack);
        if value.Some? {
          if !S.Expired(data[k], now) {
            found := Some(k);
            assert (todo - rest) * expired == gone;
            L.StillThere(c, gone);
            return;
          }
          assert (todo - rest) * expired == gone + {k};
          L.DeleteAllTwice(c, gone, {k});
          DeleteEntry(k);
        } else {
          assert (todo - rest) * expired == gone;
        }
      }
    }

    /** Where Ns_CacheFlush stands: `gone` is deleted, `found` comes next, `todo` is still to be met. */
    ghost predicate Flushing(c: S.Cache, now: S.Time, gone: set<Key>, found: Option<Key>, todo: set<Key>)
      reads this
    {
      var seen, expired := S.Seen(c, []), S.SeenExpired(c, [], now);
      && Valid() && S.Wf(c) && todo <= data.Keys && View() == S.DeleteAll(c, gone)
      && gone == (c.entries.Keys - todo - (if found.Some? then {found.value} else {})) * seen
      && (found.None? ==> todo == {})
      && (found.Some? ==> found.value in data && found.value in seen - expired && found.value !in todo)
    }

    /** One turn of the loop of Ns_CacheFlush. */
    method FlushNext(k: Key, todo: set<Key>, now: S.Time, ghost c: S.Cache, ghost gone: set<Key>)
      returns (found: Option<Key>, rest: set<Key>, ghost gone': set<Key>)
      requires Flushing(c, now, gone, Some(k), todo)
      modifies this
      ensures Flushing(c, now, gone', found, rest)
      ensures |gone' - S.SeenExpired(c, [], now)| == |gone - S.SeenExpired(c, [], now)| + 1
      ensures |rest| <= |todo| && (found.Some? ==> |rest| < |todo|)
    {
      hide S.Wf, Linked, S.DeleteAll, S.Seen, S.SeenExpired;
      ghost var seen, expired := S.Seen(c, []), S.SeenExpired(c, [], now);
      L.SeenBounds(c, [], now);
      L.StillThere(c, gone);
      L.DeleteAllTwice(c, gone, {k});
      L.FlushCounts(c.entries.Keys, todo, gone, seen, expired, k);
      DeleteEntry(k);
      gone' := gone + {k};
      L.StillThere(c, gone');
      L.SeenAfter(c, gone', [], now);
      found, rest := NextEntry(todo, [], now);
      L.DeleteAllTwice(c, gone', (todo - rest) * (expired - gone'));
      L.FlushSets(c.entries.Keys, todo, rest, gone', seen, expired, found);
      gone' := gone' + (todo - rest) * (expired - gone');
    }

    /** Ns_CacheFlush: the result counts the entries that had not expired. */
    method Flush(now: S.Time) returns (flushed: nat)
      requires Valid()
      modifies this
      ensures Valid() && View() == S.Flush(old(View()))
      ensures flushed == |S.Seen(old(View()), []) - S.SeenExpired(old(View()), [], now)|
    {
      hide S.Wf, Linked, S.DeleteAll, S.Seen, S.SeenExpired, Flushing;
      ghost var c := View();
      flushed := 0;
      var found, todo := NextEntry(data.Keys, [], now);
      ghost var gone := (c.entries.Keys - todo) * S.SeenExpired(c, [], now);
      FlushBegins(c, now, gone, found, todo);
      while found.Some?
        invariant Flushing(c, now, gone, found, todo)
        invariant flushed == |gone - S.SeenExpired(c, [], now)|
        decreases |todo|, found.Some?
      {
        found, todo, gone := FlushNext(found.value, todo, now, c, gone);
        flushed := flushed + 1;
      }
      FlushEnds(c, now, gone, todo);
    }

    lemma FlushBegins(c: S.Cache, now: S.Time, gone: set<Key>, found: Option<Key>, todo: set<Key>)
      requires Valid() && S.Wf(c) && todo <= c.entries.Keys && todo <= data.Keys
      requires gone == (c.entries.Keys - todo) * S.SeenExpired(c, [], now) && View() == S.DeleteAll(c, gone)
      requires found.None? ==> todo == {}
      requires found.Some? ==> && found.value in data && found.value in c.entries && found.value !in todo
                               && found.value in S.Seen(c, []) && found.value !in S.SeenExpired(c, [], now)
      requires forall x :: x in c.entries.Keys - todo && x in S.Seen(c, []) ==>
                 found == Some(x) || x in S.SeenExpired(c, [], now)
      ensures Flushing(c, now, gone, found, todo) && gone - S.SeenExpired(c, [], now) == {}
    {
      hide S.Wf, Linked, S.DeleteAll, S.Seen, S.SeenExpired, Valid;
      L.SeenBounds(c, [], now);
    }

    lemma FlushEnds(c: S.Cache, now: S.Time, gone: set<Key>, todo: set<Key>)
      requires Flushing(c, now, gone, None, todo)
      ensures Valid() && gone == S.Seen(c, []) && View() == S.Flush(c)
    {
      hide S.Wf, Linked, S.DeleteAll, S.Seen, S.SeenExpired, Valid;
      L.SeenBounds(c, [], now);
    }
  }
}
