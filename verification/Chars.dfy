/** Characters and C strings: character classes, letter case, searching and trimming. */
module Chars {

  /** isspace. */
  predicate IsSpace(c: char) {
    c == ' ' || c == '\t' || c == '\n' || c == '\U{0b}' || c == '\U{0c}' || c == '\r'
  }

  /** tolower, for ASCII. */
  function Lower(s: string): (r: string)
    ensures |r| == |s|
  {
    seq(|s|, i requires 0 <= i < |s| =>
      if 'A' <= s[i] <= 'Z' then ((s[i] as int) + 32) as char else s[i])
  }

  predicate At(s: string, i: nat, c: char) {
    i < |s| && s[i] == c
  }

  /** strchr. */
  function Find(s: string, i: nat, c: char): (r: nat)
    requires i <= |s|
    ensures i <= r <= |s| && (r < |s| ==> s[r] == c)
    ensures forall j :: i <= j < r ==> s[j] != c
    decreases |s| - i
  {
    if i == |s| || s[i] == c then i else Find(s, i + 1, c)
  }

  method Strchr(s: string, i: nat, c: char) returns (r: nat)
    requires i <= |s|
    ensures r == Find(s, i, c)
  {
    r := i;
    while r < |s| && s[r] != c
      invariant i <= r <= |s| && Find(s, r, c) == Find(s, i, c)
    {
      r := r + 1;
    }
  }

  function TrimLeft(s: string): string {
    if s != "" && IsSpace(s[0]) then TrimLeft(s[1..]) else s
  }

  /** Trimming takes away the longest prefix of white space. */
  lemma {:induction false} TrimLeftIs(s: string)
    ensures var r := TrimLeft(s);
            && |r| <= |s| && r == s[|s| - |r|..]
            && (r != "" ==> !IsSpace(r[0]))
            && forall i :: 0 <= i < |s| - |r| ==> IsSpace(s[i])
  {
    if s != "" && IsSpace(s[0]) {
      var t := s[1..];
      TrimLeftIs(t);
      var r := TrimLeft(t);
      assert t[|t| - |r|..] == s[|s| - |r|..];
      forall i | 0 <= i < |s| - |r| ensures IsSpace(s[i]) {
        assert i > 0 ==> s[i] == t[i - 1];
      }
    }
  }

  /** Trimming a text in two parts. */
  lemma {:induction false} TrimConcat(a: string, b: string)
    ensures TrimLeft(a + b) == if TrimLeft(a) == "" then TrimLeft(b) else TrimLeft(a) + b
  {
    if a == "" {
      assert a + b == b;
    } else if IsSpace(a[0]) {
      assert (a + b)[1..] == a[1..] + b;
      TrimConcat(a[1..], b);
    }
  }

  function TrimRight(s: string): string {
    if s != "" && IsSpace(s[|s| - 1]) then TrimRight(s[..|s| - 1]) else s
  }

  /** Nothing but white space. */
  predicate Blank(s: string) {
    forall i :: 0 <= i < |s| ==> IsSpace(s[i])
  }

  /** No white space at either end. */
  predicate Trimmed(s: string) {
    s != "" ==> !IsSpace(s[0]) && !IsSpace(s[|s| - 1])
  }

  // ----- a text inside a longer one

  /** `t` appears in `s` at `o`. */
  predicate Holds(s: string, o: nat, t: string) {
    o + |t| <= |s| && s[o..o + |t|] == t
  }

  lemma HoldsParts(s: string, o: nat, a: string, b: string)
    requires Holds(s, o, a + b)
    ensures Holds(s, o, a) && Holds(s, o + |a|, b)
  {
    var t := a + b;
    assert s[o..o + |a|] == s[o..o + |t|][..|a|] == t[..|a|] == a;
    assert s[o + |a|..o + |t|] == s[o..o + |t|][|a|..] == t[|a|..] == b;
  }

  lemma HoldsAt(s: string, o: nat, t: string)
    requires Holds(s, o, t)
    ensures forall i :: o <= i < o + |t| ==> s[i] == t[i - o]
  {
    forall i | o <= i < o + |t| ensures s[i] == t[i - o] {
      assert s[o..o + |t|][i - o] == t[i - o];
    }
  }

  lemma HoldsFits(s: string, o: nat, t: string)
    requires Holds(s, o, t)
    ensures o + |t| <= |s|
  {
  }

  // ----- what the character classes are

  /** White space is the blank and the five control characters from tab to carriage return. */
  lemma SpaceIs(c: char)
    ensures IsSpace(c) <==> c as int == 32 || 9 <= c as int <= 13
  {
  }

  const UPPER := "ABCDEFGHIJKLMNOPQRSTUVWXYZ"
  const LOWER := "abcdefghijklmnopqrstuvwxyz"

  /** Lower case replaces each capital letter by its small one, and nothing else. */
  lemma LowerIs(s: string, i: nat)
    requires i < |s|
    ensures forall n :: 0 <= n < 26 && s[i] == UPPER[n] ==> Lower(s)[i] == LOWER[n]
    ensures (forall n :: 0 <= n < 26 ==> s[i] != UPPER[n]) ==> Lower(s)[i] == s[i]
  {
    var c := s[i];
    if 'A' <= c <= 'Z' {
      var n := c as int - 65;
      assert c == UPPER[n];
    }
  }

  /** So it does not matter how often it is done. */
  lemma LowerTwice(s: string)
    ensures Lower(Lower(s)) == Lower(s)
  {
  }
}
