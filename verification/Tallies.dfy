/** Sums of byte counts, and unions of value bags, over a list of keys. */
module Tallies {
  import opened Prelude

  /** The address of a stored value. */
  type Value = int

  type Bag = multiset<Value>

  function Total<K>(w: K -> int, ks: seq<K>): int {
    if ks == [] then 0 else w(ks[0]) + Total(w, ks[1..])
  }

  function Union<K>(h: K -> Bag, ks: seq<K>): Bag {
    if ks == [] then multiset{} else h(ks[0]) + Union(h, ks[1..])
  }

  lemma {:induction false} TotalConcat<K>(w: K -> int, a: seq<K>, b: seq<K>)
    ensures Total(w, a + b) == Total(w, a) + Total(w, b)
  {
    if a == [] {
      assert a + b == b;
    } else {
      assert (a + b)[1..] == a[1..] + b;
      TotalConcat(w, a[1..], b);
    }
  }

  lemma {:induction false} UnionConcat<K>(h: K -> Bag, a: seq<K>, b: seq<K>)
    ensures Union(h, a + b) == Union(h, a) + Union(h, b)
  {
    if a == [] {
      assert a + b == b;
    } else {
      assert (a + b)[1..] == a[1..] + b;
      UnionConcat(h, a[1..], b);
    }
  }

  lemma {:induction false} TotalFrame<K>(w: K -> int, w': K -> int, ks: seq<K>)
    requires forall k :: k in ks ==> w(k) == w'(k)
    ensures Total(w, ks) == Total(w', ks)
  {
    if ks != [] {
      TotalFrame(w, w', ks[1..]);
    }
  }

  lemma {:induction false} UnionFrame<K>(h: K -> Bag, h': K -> Bag, ks: seq<K>)
    requires forall k :: k in ks ==> h(k) == h'(k)
    ensures Union(h, ks) == Union(h', ks)
  {
    if ks != [] {
      UnionFrame(h, h', ks[1..]);
    }
  }

  /** A list splits into what is picked and what is not. */
  lemma {:induction false} TotalSplit<K>(w: K -> int, ks: seq<K>, a: set<K>)
    ensures Total(w, ks) == Total(w, Keep(ks, a)) + Total(w, Drop(ks, a))
  {
    if ks != [] {
      TotalSplit(w, ks[1..], a);
      if ks[0] in a {
        assert Keep(ks, a)[1..] == Keep(ks[1..], a);
      } else {
        assert Drop(ks, a)[1..] == Drop(ks[1..], a);
      }
    }
  }

  lemma {:induction false} UnionSplit<K>(h: K -> Bag, ks: seq<K>, a: set<K>)
    ensures Union(h, ks) == Union(h, Keep(ks, a)) + Union(h, Drop(ks, a))
  {
    if ks != [] {
      UnionSplit(h, ks[1..], a);
      if ks[0] in a {
        assert Keep(ks, a)[1..] == Keep(ks[1..], a);
      } else {
        assert Drop(ks, a)[1..] == Drop(ks[1..], a);
      }
    }
  }

  /** Picking two sets is picking the first, then the second from what is left. */
  lemma {:induction false} TotalTwice<K>(w: K -> int, ks: seq<K>, a: set<K>, b: set<K>)
    ensures Total(w, Keep(ks, a + b)) == Total(w, Keep(ks, a)) + Total(w, Keep(Drop(ks, a), b))
  {
    if ks != [] {
      TotalTwice(w, ks[1..], a, b);
      var k, t := ks[0], ks[1..];
      if k in a {
        assert Keep(ks, a + b)[1..] == Keep(t, a + b) && Keep(ks, a)[1..] == Keep(t, a);
      } else {
        assert Drop(ks, a)[1..] == Drop(t, a);
        assert k in b ==> Keep(ks, a + b)[1..] == Keep(t, a + b)
                          && Keep(Drop(ks, a), b)[1..] == Keep(Drop(t, a), b);
      }
    }
  }

  lemma {:induction false} UnionTwice<K>(h: K -> Bag, ks: seq<K>, a: set<K>, b: set<K>)
    ensures Union(h, Keep(ks, a + b)) == Union(h, Keep(ks, a)) + Union(h, Keep(Drop(ks, a), b))
  {
    if ks != [] {
      UnionTwice(h, ks[1..], a, b);
      var k, t := ks[0], ks[1..];
      if k in a {
        assert Keep(ks, a + b)[1..] == Keep(t, a + b) && Keep(ks, a)[1..] == Keep(t, a);
      } else {
        assert Drop(ks, a)[1..] == Drop(t, a);
        assert k in b ==> Keep(ks, a + b)[1..] == Keep(t, a + b)
                          && Keep(Drop(ks, a), b)[1..] == Keep(Drop(t, a), b);
      }
    }
  }

  lemma UnionOne<K>(h: K -> Bag, k: K)
    ensures Union(h, [k]) == h(k)
  {
    assert [k][1..] == [];
  }

  /** One key of a duplicate-free list is counted once. */
  lemma TotalPick<K>(w: K -> int, ks: seq<K>, k: K)
    requires NoDup(ks) && k in ks
    ensures Total(w, ks) == w(k) + Total(w, Drop(ks, {k}))
    ensures Total(w, Keep(ks, {k})) == w(k)
  {
    var i :| 0 <= i < |ks| && ks[i] == k;
    DropAt(ks, i);
    TotalSplit(w, ks, {k});
    assert Total(w, [k]) == w(k);
  }

  lemma UnionPick<K>(h: K -> Bag, ks: seq<K>, k: K)
    requires NoDup(ks) && k in ks
    ensures Union(h, ks) == h(k) + Union(h, Drop(ks, {k}))
    ensures Union(h, Keep(ks, {k})) == h(k)
  {
    var i :| 0 <= i < |ks| && ks[i] == k;
    DropAt(ks, i);
    UnionSplit(h, ks, {k});
    UnionOne(h, k);
  }

  lemma {:induction false} TotalNonNegative<K(!new)>(w: K -> int, ks: seq<K>)
    requires forall k :: w(k) >= 0
    ensures Total(w, ks) >= 0
  {
    if ks != [] {
      TotalNonNegative(w, ks[1..]);
    }
  }
}
