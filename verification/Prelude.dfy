/** Types and sequence facts shared by the models. */
module Prelude {

  datatype Option<+T> = None | Some(value: T)

  /** No element occurs twice. */
  ghost predicate NoDup<T>(s: seq<T>) {
    forall i, j :: 0 <= i < j < |s| ==> s[i] != s[j]
  }

  /** The elements of `s` that belong to `pick`, in their original order. */
  function Keep<T>(s: seq<T>, pick: set<T>): (r: seq<T>)
    ensures forall x :: x in r ==> x in s && x in pick
    ensures forall x :: x in s && x in pick ==> x in r
  {
    if s == [] then []
    else if s[0] in pick then [s[0]] + Keep(s[1..], pick)
    else Keep(s[1..], pick)
  }

  /** The elements of `s` outside `out`, in their original order. */
  function Drop<T>(s: seq<T>, out: set<T>): (r: seq<T>)
    ensures forall x :: x in r ==> x in s && x !in out
    ensures forall x :: x in s && x !in out ==> x in r
    ensures |r| <= |s|
  {
    if s == [] then []
    else if s[0] in out then Drop(s[1..], out)
    else [s[0]] + Drop(s[1..], out)
  }

  lemma {:induction false} DropTwice<T>(s: seq<T>, a: set<T>, b: set<T>)
    ensures Drop(Drop(s, a), b) == Drop(s, a + b)
  {
    if s != [] {
      DropTwice(s[1..], a, b);
      if s[0] !in a {
        assert Drop(s, a)[1..] == Drop(s[1..], a);
      }
    }
  }

  lemma {:induction false} DropNothing<T>(s: seq<T>, out: set<T>)
    requires forall x :: x in s ==> x !in out
    ensures Drop(s, out) == s
  {
    if s != [] {
      DropNothing(s[1..], out);
    }
  }

  lemma {:induction false} DropEverything<T>(s: seq<T>, out: set<T>)
    requires forall x :: x in s ==> x in out
    ensures Drop(s, out) == []
  {
    if s != [] {
      DropEverything(s[1..], out);
    }
  }

  lemma {:induction false} DropConcat<T>(a: seq<T>, b: seq<T>, out: set<T>)
    ensures Drop(a + b, out) == Drop(a, out) + Drop(b, out)
  {
    if a == [] {
      assert a + b == b;
    } else {
      assert (a + b)[1..] == a[1..] + b;
      DropConcat(a[1..], b, out);
    }
  }

  lemma {:induction false} KeepNothing<T>(s: seq<T>, pick: set<T>)
    requires forall x :: x in s ==> x !in pick
    ensures Keep(s, pick) == []
  {
    if s != [] {
      KeepNothing(s[1..], pick);
    }
  }

  lemma {:induction false} DropNoDup<T>(s: seq<T>, out: set<T>)
    requires NoDup(s)
    ensures NoDup(Drop(s, out))
  {
    if s != [] {
      DropNoDup(s[1..], out);
      assert s[0] !in s[1..];
    }
  }

  /** Dropping one key of a duplicate-free sequence cuts out exactly its position. */
  lemma {:induction false} DropAt<T>(s: seq<T>, i: nat)
    requires NoDup(s) && i < |s|
    ensures Drop(s, {s[i]}) == s[..i] + s[i + 1..]
    ensures Keep(s, {s[i]}) == [s[i]]
  {
    var t := s[1..];
    if i == 0 {
      assert s[0] !in t;
      DropNothing(t, {s[0]});
      KeepNothing(t, {s[0]});
    } else {
      DropAt(t, i - 1);
      assert s[..i] == [s[0]] + t[..i - 1];
      assert s[i + 1..] == t[i..];
    }
  }
}
