/** The pool of pre-bound sockets of nsd/binder.c as an object updated in place. */
module PrebindImpl {
  import opened Prelude
  import opened Prebind

  class Binder {
    var table: Table
    ghost var bound: seq<Sock>
    ghost var handed: seq<Sock>
    var closed: seq<Sock>

    constructor ()
      ensures View() == Pool(map[], [], [], [])
    {
      table, bound, handed, closed := map[], [], [], [];
    }

    ghost function View(): Pool
      reads this
    {
      Pool(table, bound, handed, closed)
    }

    /** PrebindAlloc: nothing if the first bind fails. */
    static method PrebindAlloc(binds: seq<Sock>) returns (r: Option<seq<Sock>>)
      requires binds != []
      ensures r == if binds[0] == INVALID then None else Some(binds)
    {
      var sockets := [];
      while |sockets| < |binds|
        invariant sockets <= binds
        invariant |sockets| > 0 ==> binds[0] != INVALID
      {
        var s := binds[|sockets|];
        if s == INVALID && sockets == [] {
          return None;
        }
        sockets := sockets + [s];
      }
      assert sockets == binds;
      r := Some(sockets);
    }

    /** PrebindSockets for one protocol and address; false if the binds fail. */
    method PrebindSocket(k: Key, binds: seq<Sock>) returns (ok: bool)
      requires binds != []
      modifies this
      ensures View() == Bind(old(View()), k, binds)
      ensures ok <==> k in old(table) || binds[0] != INVALID
    {
      if k in table {
        return true;
      }
      var entry := PrebindAlloc(binds);
      ok := entry.Some?;
      if ok {
        table := table[k := entry.value];
        bound := bound + Usable(binds);
      }
    }

    /** PrebindRegisterInetSocket, with PrebindAppendSocket; it fails when there is no memory. */
    method PrebindRegisterInetSocket(k: Key, s: Sock, memory: bool) returns (ok: bool)
      modifies this
      ensures ok == memory && View() == if ok then Adopt(old(View()), k, s) else old(View())
    {
      if !memory {
        return false;
      }
      table := table[k := (if k in table then table[k] else []) + [s]];
      bound := bound + [s];
      ok := true;
    }

    /** PrebindGet. */
    method PrebindGet(k: Key) returns (found: bool, s: Sock)
      modifies this
      ensures (View(), found, s) == Get(old(View()), k)
    {
      found, s := false, INVALID;
      if k in table {
        found := true;
        var ss, i := table[k], 0;
        while i < |ss| && ss[i] == INVALID
          invariant i <= |ss| && FirstUsable(ss, i) == FirstUsable(ss, 0)
        {
          i := i + 1;
        }
        if i == |ss| {
          table := table - {k};
        } else {
          s := ss[i];
          ss := ss[i := INVALID];
          ghost var first := i;
          while i < |ss| && ss[i] == INVALID
            invariant first <= i <= |ss| && FirstUsable(ss, i) == FirstUsable(ss, first)
          {
            i := i + 1;
          }
          handed := handed + [s];
          table := if i == |ss| then table - {k} else table[k := ss];
        }
      }
    }

    /** PrebindCloseSockets, and the entry is deleted. */
    method PrebindCloseSockets(k: Key)
      requires k in table
      modifies this`table, this`closed
      ensures View() == CloseEntry(old(View()), k)
    {
      var ss, i := table[k], 0;
      while i < |ss|
        invariant i <= |ss| && table == old(table)
        invariant closed + Usable(ss[i..]) == old(closed) + Usable(ss)
      {
        assert ss[i..][1..] == ss[i + 1..];
        if ss[i] != INVALID {
          closed := closed + [ss[i]];
        }
        i := i + 1;
      }
      table := table - {k};
    }

    /** NsClosePreBound. */
    method NsClosePreBound() returns (ghost order: seq<Key>)
      modifies this`table, this`closed
      ensures (forall k :: k in old(table) ==> k in order) && table == map[]
      ensures View() == CloseAll(old(View()), order)
    {
      hide CloseEntry, Usable;
      order := [];
      while table != map[]
        invariant View() == CloseAll(old(View()), order)
        invariant forall k :: k in old(table) ==> k in table || k in order
        decreases |table|
      {
        var k :| k in table;
        ghost var was := View();
        PrebindCloseSockets(k);
        CloseEntryShrinks(was, k);
        CloseAllSnoc(old(View()), order, k);
        order := order + [k];
      }
    }
  }

  lemma CloseEntryShrinks(p: Pool, k: Key)
    requires k in p.table
    ensures var p' := CloseEntry(p, k);
            |p'.table| < |p.table| && forall x :: x in p.table && x != k ==> x in p'.table
  {
    assert (p.table - {k}).Keys == p.table.Keys - {k};
  }

  lemma {:induction false} CloseAllSnoc(p: Pool, order: seq<Key>, k: Key)
    ensures CloseAll(p, order + [k]) == CloseEntry(CloseAll(p, order), k)
    decreases |order|
  {
    hide CloseEntry;
    if order == [] {
      assert order + [k] == [k];
      assert [k][1..] == [];
    } else {
      assert (order + [k])[1..] == order[1..] + [k];
      CloseAllSnoc(CloseEntry(p, order[0]), order[1..], k);
    }
  }
}
