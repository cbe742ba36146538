/**
 * The pool of pre-bound TCP and UDP sockets of nsd/binder.c: PrebindAlloc, PrebindGet,
 * PrebindAppendSocket, PrebindRegisterInetSocket, PrebindCloseSockets and NsClosePreBound.
 *
 * The two hash tables are one map, whose keys tell the protocol.  What the operating system
 * answers to a bind is given with the call.  All sockets that were ever bound, handed out or
 * closed are recorded, in order.
 */
module Prebind {
  import opened Prelude

  type Sock = int

  const INVALID: Sock := -1

  datatype Proto = Tcp | Udp

  /** A protocol and a normalized socket address. */
  datatype Key = Key(proto: Proto, addr: string)

  type Table = map<Key, seq<Sock>>

  datatype Pool = Pool(table: Table, bound: seq<Sock>, handed: seq<Sock>, closed: seq<Sock>)

  // ----- the specification

  /** The sockets of an entry that can still be used. */
  function Usable(ss: seq<Sock>): seq<Sock> {
    if ss == [] then [] else (if ss[0] != INVALID then [ss[0]] else []) + Usable(ss[1..])
  }

  /** The first usable socket from position `i` on, or the length. */
  function FirstUsable(ss: seq<Sock>, i: nat): (r: nat)
    requires i <= |ss|
    ensures i <= r <= |ss| && (r < |ss| ==> ss[r] != INVALID)
    ensures forall j :: i <= j < r ==> ss[j] == INVALID
    decreases |ss| - i
  {
    if i == |ss| || ss[i] != INVALID then i else FirstUsable(ss, i + 1)
  }

  /**
   * PrebindSockets for one protocol and address: `binds` is what the system answers to each
   * of the binds, of which the first must succeed.
   */
  function Bind(p: Pool, k: Key, binds: seq<Sock>): Pool
    requires binds != []
  {
    if k in p.table || binds[0] == INVALID then p
    else p.(table := p.table[k := binds], bound := p.bound + Usable(binds))
  }

  /** PrebindRegisterInetSocket. */
  function Adopt(p: Pool, k: Key, s: Sock): Pool {
    p.(table := p.table[k := (if k in p.table then p.table[k] else []) + [s]], bound := p.bound + [s])
  }

  /** PrebindGet: whether there is an entry, and the socket. */
  function Get(p: Pool, k: Key): (Pool, bool, Sock) {
    if k !in p.table then (p, false, INVALID)
    else
      var ss := p.table[k];
      var i := FirstUsable(ss, 0);
      if i == |ss| then (p.(table := p.table - {k}), true, INVALID)
      else
        var ss' := ss[i := INVALID];
        var t := if FirstUsable(ss', i) == |ss'| then p.table - {k} else p.table[k := ss'];
        (p.(table := t, handed := p.handed + [ss[i]]), true, ss[i])
  }

  /** PrebindCloseSockets, and the entry is deleted. */
  function CloseEntry(p: Pool, k: Key): Pool {
    if k !in p.table then p
    else p.(table := p.table - {k}, closed := p.closed + Usable(p.table[k]))
  }

  /** NsClosePreBound, which meets the entries in some order. */
  function CloseAll(p: Pool, order: seq<Key>): Pool
    decreases |order|
  {
    if order == [] then p else CloseAll(CloseEntry(p, order[0]), order[1..])
  }

  // ----- the invariant

  predicate Holds(t: Table, k: Key, i: nat, x: Sock) {
    k in t && i < |t[k]| && t[k][i] == x && x != INVALID
  }

  ghost predicate InPool(t: Table, x: Sock) {
    exists k, i :: Holds(t, k, i, x)
  }

  /** No socket is in two places of the table. */
  ghost predicate Distinct(t: Table) {
    forall k, i, k', i', x :: Holds(t, k, i, x) && Holds(t, k', i', x) ==> k == k' && i == i'
  }

  /** Every entry has a usable socket. */
  ghost predicate Stocked(t: Table) {
    forall k :: k in t ==> FirstUsable(t[k], 0) < |t[k]|
  }

  /** Every bound socket is in the pool, handed out, or closed: in exactly one of them, and once. */
  ghost predicate Inv(p: Pool) {
    && Stocked(p.table) && Distinct(p.table)
    && NoDup(p.bound) && NoDup(p.handed) && NoDup(p.closed)
    && (forall x :: x in p.bound <==> InPool(p.table, x) || x in p.handed || x in p.closed)
    && (forall x :: InPool(p.table, x) ==> x !in p.handed && x !in p.closed)
    && (forall x :: x in p.handed ==> x !in p.closed)
  }

  // ----- facts about entries

  lemma {:induction false} UsableIs(ss: seq<Sock>)
    ensures forall x :: x in Usable(ss) <==> x in ss && x != INVALID
  {
    if ss != [] {
      UsableIs(ss[1..]);
      assert ss == [ss[0]] + ss[1..];
    }
  }

  /** The usable sockets of an entry differ. */
  ghost predicate Apart(ss: seq<Sock>) {
    forall i, j :: 0 <= i < j < |ss| && ss[i] != INVALID ==> ss[i] != ss[j]
  }

  lemma {:induction false} UsableNoDup(ss: seq<Sock>)
    requires Apart(ss)
    ensures NoDup(Usable(ss))
  {
    if ss != [] {
      UsableNoDup(ss[1..]);
      UsableIs(ss[1..]);
      if ss[0] != INVALID {
        assert ss[0] !in ss[1..];
        NoDupCons(ss[0], Usable(ss[1..]));
      } else {
        assert [] + Usable(ss[1..]) == Usable(ss[1..]);
      }
    }
  }

  lemma NoDupCons<T>(x: T, s: seq<T>)
    requires NoDup(s) && x !in s
    ensures NoDup([x] + s)
  {
  }

  lemma NoDupConcat<T>(a: seq<T>, b: seq<T>)
    requires NoDup(a) && NoDup(b) && forall x :: x in a ==> x !in b
    ensures NoDup(a + b)
  {
    var s := a + b;
    forall i, j | 0 <= i < j < |s| ensures s[i] != s[j] {
      if i < |a| <= j {
        assert s[i] in a && s[j] in b;
      }
    }
  }

  // ----- facts about tables: an entry against the rest

  lemma RestHolds(t: Table, k: Key, k': Key, i: nat, x: Sock)
    ensures Holds(t - {k}, k', i, x) <==> k' != k && Holds(t, k', i, x)
  {
  }

  /** The sockets of a table are those of one entry and those of the rest. */
  lemma PoolSplits(t: Table, k: Key, x: Sock)
    requires k in t
    ensures InPool(t, x) <==> InPool(t - {k}, x) || x in Usable(t[k])
  {
    UsableIs(t[k]);
    if InPool(t, x) {
      var k', i :| Holds(t, k', i, x);
      RestHolds(t, k, k', i, x);
    }
    if InPool(t - {k}, x) {
      var k', i :| Holds(t - {k}, k', i, x);
      RestHolds(t, k, k', i, x);
    }
    if x in Usable(t[k]) {
      var i :| 0 <= i < |t[k]| && t[k][i] == x;
      assert Holds(t, k, i, x);
    }
  }

  lemma DistinctSplits(t: Table, k: Key)
    requires Distinct(t) && k in t
    ensures Distinct(t - {k}) && Apart(t[k])
    ensures forall x :: x in Usable(t[k]) ==> !InPool(t - {k}, x)
  {
    forall k1, i1, k2, i2, x | Holds(t - {k}, k1, i1, x) && Holds(t - {k}, k2, i2, x) ensures k1 == k2 && i1 == i2 {
      RestHolds(t, k, k1, i1, x);
      RestHolds(t, k, k2, i2, x);
    }
    forall i, j | 0 <= i < j < |t[k]| && t[k][i] != INVALID ensures t[k][i] != t[k][j] {
      assert Holds(t, k, i, t[k][i]);
      assert t[k][j] == t[k][i] ==> Holds(t, k, j, t[k][i]);
    }
    forall x | x in Usable(t[k]) ensures !InPool(t - {k}, x) {
      UsableIs(t[k]);
      var i :| 0 <= i < |t[k]| && t[k][i] == x;
      assert Holds(t, k, i, x);
      if InPool(t - {k}, x) {
        var k', i' :| Holds(t - {k}, k', i', x);
        RestHolds(t, k, k', i', x);
      }
    }
  }

  lemma DistinctJoins(t: Table, k: Key)
    requires k in t && Distinct(t - {k}) && Apart(t[k]) && forall x :: x in Usable(t[k]) ==> !InPool(t - {k}, x)
    ensures Distinct(t)
  {
    UsableIs(t[k]);
    forall k1, i1, k2, i2, x | Holds(t, k1, i1, x) && Holds(t, k2, i2, x) ensures k1 == k2 && i1 == i2 {
      RestHolds(t, k, k1, i1, x);
      RestHolds(t, k, k2, i2, x);
      assert k1 == k || k2 == k ==> x in Usable(t[k]);
      assert k1 != k || k2 != k ==> InPool(t - {k}, x);
    }
  }

  lemma Replaced(t: Table, k: Key, ss: seq<Sock>)
    ensures t[k := ss] - {k} == t - {k}
  {
  }

  // ----- every operation keeps the invariant

  /** The system hands out sockets that were never seen before, each once. */
  ghost predicate Fresh(p: Pool, ss: seq<Sock>) {
    Apart(ss) && forall x :: x in Usable(ss) ==> x !in p.bound
  }

  lemma BindKeeps(p: Pool, k: Key, binds: seq<Sock>)
    requires Inv(p) && binds != [] && Fresh(p, binds)
    ensures Inv(Bind(p, k, binds))
  {
    hide InPool, Distinct, Apart, Usable, NoDup;
    var p' := Bind(p, k, binds);
    if p' != p {
      assert p'.table - {k} == p.table;
      forall x ensures InPool(p'.table, x) <==> InPool(p.table, x) || x in Usable(binds) {
        PoolSplits(p'.table, k, x);
      }
      DistinctJoins(p'.table, k);
      UsableNoDup(binds);
      forall x | x in p.bound ensures x !in Usable(binds) {
        assert x in Usable(binds) ==> x !in p.bound;
      }
      NoDupConcat(p.bound, Usable(binds));
    }
  }

  lemma AppendUsable(ss: seq<Sock>, s: Sock)
    requires s != INVALID
    ensures forall x :: x in Usable(ss + [s]) <==> x in Usable(ss) || x == s
    ensures FirstUsable(ss + [s], 0) < |ss + [s]|
    ensures Apart(ss) && s !in ss ==> Apart(ss + [s])
  {
    UsableIs(ss + [s]);
    UsableIs(ss);
    assert (ss + [s])[|ss|] == s;
  }

  lemma AdoptKeeps(p: Pool, k: Key, s: Sock)
    requires Inv(p) && s != INVALID && s !in p.bound
    ensures Inv(Adopt(p, k, s))
  {
    hide InPool, Distinct, Apart, Usable, NoDup;
    var p' := Adopt(p, k, s);
    var ss := if k in p.table then p.table[k] else [];
    Replaced(p.table, k, ss + [s]);
    AppendUsable(ss, s);
    NothingUsable();
    UsableIs(ss);
    forall x ensures InPool(p'.table, x) <==> InPool(p.table, x) || x == s {
      PoolSplits(p'.table, k, x);
      if k in p.table {
        PoolSplits(p.table, k, x);
      } else {
        assert p.table - {k} == p.table;
      }
    }
    if k in p.table {
      DistinctSplits(p.table, k);
    } else {
      assert p.table - {k} == p.table;
    }
    assert !InPool(p.table, s);
    if k in p.table {
      PoolSplits(p.table, k, s);
    }
    DistinctJoins(p'.table, k);
    OneNoDup(s);
    NoDupConcat(p.bound, [s]);
  }

  lemma NothingUsable()
    ensures Usable([]) == [] && Apart([])
  {
  }

  lemma OneNoDup(s: Sock)
    ensures NoDup([s])
  {
  }

  /** Taking a socket out of an entry. */
  lemma TakeUsable(ss: seq<Sock>, i: nat)
    requires Apart(ss) && i < |ss| && ss[i] != INVALID
    ensures var ss' := ss[i := INVALID];
            && Apart(ss') && ss[i] !in Usable(ss')
            && forall x :: x in Usable(ss) <==> x in Usable(ss') || x == ss[i]
  {
    var ss' := ss[i := INVALID];
    UsableIs(ss);
    UsableIs(ss');
    forall x | x in ss && x != ss[i] ensures x in ss' {
      var j :| 0 <= j < |ss| && ss[j] == x;
      assert ss'[j] == x;
    }
    forall x | x in ss' && x != INVALID ensures x in ss && x != ss[i] {
      var j :| 0 <= j < |ss'| && ss'[j] == x;
      assert ss[j] == x;
    }
  }

  lemma NoneUsable(ss: seq<Sock>, i: nat)
    requires i <= |ss| && (forall j :: 0 <= j < i ==> ss[j] == INVALID)
    ensures FirstUsable(ss, i) == |ss| ==> forall x :: x !in Usable(ss)
    ensures FirstUsable(ss, i) < |ss| ==> FirstUsable(ss, 0) < |ss|
  {
    UsableIs(ss);
  }

  /** What a hit does to the table: exactly the socket that is handed out leaves it. */
  lemma GetTable(p: Pool, k: Key)
    requires Stocked(p.table) && Distinct(p.table) && k in p.table
    ensures var (p', found, s) := Get(p, k);
            && found && s != INVALID && Stocked(p'.table) && Distinct(p'.table)
            && InPool(p.table, s) && !InPool(p'.table, s)
            && forall x :: x != s ==> (InPool(p'.table, x) <==> InPool(p.table, x))
  {
    hide InPool, Distinct, Apart, Usable;
    var t, ss := p.table, p.table[k];
    var i := FirstUsable(ss, 0);
    var ss' := ss[i := INVALID];
    var t' := Get(p, k).0.table;
    DistinctSplits(t, k);
    TakeUsable(ss, i);
    NoneUsable(ss', i);
    Replaced(t, k, ss');
    forall x ensures InPool(t', x) <==> InPool(t - {k}, x) || x in Usable(ss') {
      if k in t' {
        PoolSplits(t', k, x);
      }
    }
    forall x ensures InPool(t, x) <==> InPool(t - {k}, x) || x in Usable(ss) {
      PoolSplits(t, k, x);
    }
    if k in t' {
      DistinctJoins(t', k);
    }
  }

  lemma GetKeeps(p: Pool, k: Key)
    requires Inv(p)
    ensures Inv(Get(p, k).0)
  {
    hide InPool, Distinct, Stocked, NoDup;
    if k in p.table {
      GetTable(p, k);
      var (p', found, s) := Get(p, k);
      assert p'.handed == p.handed + [s] by { GetFrame(p, k); }
      GetFrame(p, k);
      OneNoDup(s);
      NoDupConcat(p.handed, [s]);
    }
  }

  lemma GetFrame(p: Pool, k: Key)
    ensures var (p', found, s) := Get(p, k);
            && p'.bound == p.bound && p'.closed == p.closed
            && p'.handed == (if s == INVALID then p.handed else p.handed + [s])
  {
  }

  lemma CloseEntryKeeps(p: Pool, k: Key)
    requires Inv(p)
    ensures Inv(CloseEntry(p, k))
  {
    hide InPool, Distinct, Usable, NoDup;
    if k in p.table {
      var p' := CloseEntry(p, k);
      DistinctSplits(p.table, k);
      forall x ensures InPool(p.table, x) <==> InPool(p'.table, x) || x in Usable(p.table[k]) {
        PoolSplits(p.table, k, x);
      }
      UsableNoDup(p.table[k]);
      forall x | x in p.closed ensures x !in Usable(p.table[k]) {
        assert x in Usable(p.table[k]) ==> InPool(p.table, x);
      }
      NoDupConcat(p.closed, Usable(p.table[k]));
    }
  }

  lemma {:induction false} CloseAllKeeps(p: Pool, order: seq<Key>)
    requires Inv(p)
    ensures var p' := CloseAll(p, order);
            && Inv(p') && p'.bound == p.bound && p'.handed == p.handed && p.closed <= p'.closed
            && forall k :: k in p'.table <==> k in p.table && k !in order
    decreases |order|
  {
    hide Inv;
    if order != [] {
      CloseEntryKeeps(p, order[0]);
      CloseAllKeeps(CloseEntry(p, order[0]), order[1..]);
      assert order == [order[0]] + order[1..];
    }
  }
}
