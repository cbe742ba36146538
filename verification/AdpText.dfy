/**
 * The character-level searches of nsd/adpparse.c: first occurrences, the end of a start
 * tag, and the end of an inline code block.  A page is a C string, so it has no NUL
 * character; a search that finds nothing answers with the length of the page.
 */
module AdpText {
  import opened Prelude
  import opened Chars

  /** TagValidFirstChar. */
  predicate FirstChar(c: char) {
    'a' <= c <= 'z' || 'A' <= c <= 'Z' || '0' <= c <= '9'
  }

  /** TagValidChar. */
  predicate NameChar(c: char) {
    FirstChar(c) || c == ':' || c == '-' || c == '_'
  }

  /** Names begin with an ASCII letter or digit; inside they may have ":", "-" and "_" as well. */
  lemma NamesAre(c: char)
    ensures FirstChar(c) <==> 48 <= c as int <= 57 || 65 <= c as int <= 90 || 97 <= c as int <= 122
    ensures NameChar(c) <==> FirstChar(c) || c as int == 58 || c as int == 45 || c as int == 95
  {
  }

  /** Two characters in a row. */
  predicate At2(s: string, i: nat, c: char, d: char) {
    i + 1 < |s| && s[i] == c && s[i + 1] == d
  }

  predicate OpenAt(s: string, i: nat) { At2(s, i, '<', '%') }

  predicate CloseAt(s: string, i: nat) { At2(s, i, '%', '>') }

  // ----- searches

  /** strstr for a two-character needle. */
  function Find2(s: string, i: nat, c: char, d: char): (r: nat)
    requires i <= |s|
    ensures i <= r <= |s| && (r < |s| ==> At2(s, r, c, d))
    ensures forall j :: i <= j < r ==> !At2(s, j, c, d)
    decreases |s| - i
  {
    if i == |s| || At2(s, i, c, d) then i else Find2(s, i + 1, c, d)
  }

  method Strstr(s: string, i: nat, c: char, d: char) returns (r: nat)
    requires i <= |s|
    ensures r == Find2(s, i, c, d)
  {
    r := i;
    while r < |s| && !(r + 1 < |s| && s[r] == c && s[r + 1] == d)
      invariant i <= r <= |s| && Find2(s, r, c, d) == Find2(s, i, c, d)
    {
      r := r + 1;
    }
  }

  // ----- the end of an inline code block

  /**
   * The simple depth counter: from position `p`, with `depth` blocks open, the first "%>"
   * that brings the depth back to zero.
   */
  function Close(s: string, p: nat, depth: int): (r: nat)
    requires p <= |s|
    ensures p <= r <= |s| && (r < |s| ==> CloseAt(s, r))
    decreases |s| - p
  {
    if p == |s| then p
    else if OpenAt(s, p) then Close(s, p + 1, depth + 1)
    else if CloseAt(s, p) then (if depth == 1 then p else Close(s, p + 1, depth - 1))
    else Close(s, p + 1, depth)
  }

  /** The number of "<%" that begin in `s[a..b]`. */
  function Opens(s: string, a: nat, b: nat): nat
    requires a <= b <= |s|
  {
    if a == b then 0 else Opens(s, a, b - 1) + if OpenAt(s, b - 1) then 1 else 0
  }

  /** The number of "%>" that begin in `s[a..b]`. */
  function Closes(s: string, a: nat, b: nat): nat
    requires a <= b <= |s|
  {
    if a == b then 0 else Closes(s, a, b - 1) + if CloseAt(s, b - 1) then 1 else 0
  }

  /** The nesting depth returns to zero with the "%>" at `r`. */
  predicate Balances(s: string, a: nat, r: nat)
    requires a <= r < |s|
  {
    CloseAt(s, r) && Opens(s, a, r + 1) == Closes(s, a, r + 1)
  }

  /** The counter answers the first "%>" at which the depth returns to zero, if there is one. */
  lemma {:induction false} CloseIsFirst(s: string, a: nat, p: nat)
    requires a <= p <= |s|
    ensures var r := Close(s, p, Opens(s, a, p) - Closes(s, a, p));
            && (r < |s| ==> Balances(s, a, r))
            && forall j :: p <= j < r ==> !Balances(s, a, j)
    decreases |s| - p
  {
    if p < |s| && !Balances(s, a, p) {
      CloseIsFirst(s, a, p + 1);
    }
  }

  lemma {:induction false} OpensGap(s: string, a: nat, b: nat, c: nat)
    requires a <= b <= c <= |s| && forall j :: b <= j < c ==> !OpenAt(s, j)
    ensures Opens(s, a, c) == Opens(s, a, b)
  {
    if b < c {
      OpensGap(s, a, b, c - 1);
    }
  }

  lemma {:induction false} ClosesGap(s: string, a: nat, b: nat, c: nat)
    requires a <= b <= c <= |s| && forall j :: b <= j < c ==> !CloseAt(s, j)
    ensures Closes(s, a, c) == Closes(s, a, b)
  {
    if b < c {
      ClosesGap(s, a, b, c - 1);
    }
  }

  lemma {:induction false} OpensGrow(s: string, a: nat, b: nat, c: nat)
    requires a <= b <= c <= |s|
    ensures Opens(s, a, b) <= Opens(s, a, c)
  {
    if b < c {
      OpensGrow(s, a, b, c - 1);
    }
  }

  lemma CountStart(s: string, start: nat, e: nat)
    requires OpenAt(s, start) && !CloseAt(s, start + 1) && e == Find2(s, start, '%', '>')
    ensures start + 2 <= e && Opens(s, start, start + 2) == 1
    ensures e < |s| ==> Closes(s, start, e + 1) == 1
    ensures forall j :: start <= j < e ==> !Balances(s, start, j)
  {
    assert Opens(s, start, start + 1) == 1;
    if e < |s| {
      ClosesGap(s, start, start, e);
    }
  }

  /** One turn: the opening at `n` is nested in front of the closing at `e`. */
  lemma CountNext(s: string, start: nat, was: nat, n: nat, e: nat, k: nat)
    requires start <= was <= n < e < |s| && OpenAt(s, n) && CloseAt(s, e)
    requires forall j :: was <= j < n ==> !OpenAt(s, j)
    requires Opens(s, start, was) == k == Closes(s, start, e + 1)
    ensures Opens(s, start, n + 2) == k + 1
    ensures !Balances(s, start, e)
    ensures var e' := Find2(s, e + 2, '%', '>');
            && (e' < |s| ==> Closes(s, start, e' + 1) == k + 1)
            && forall j :: e < j < e' ==> !Balances(s, start, j)
  {
    OpensGap(s, start, was, n);
    assert Opens(s, start, n + 1) == k + 1;
    OpensGrow(s, start, n + 2, e + 1);
    var e' := Find2(s, e + 2, '%', '>');
    assert forall j :: e < j < e' ==> !CloseAt(s, j);
    if e' < |s| {
      ClosesGap(s, start, e + 1, e');
    }
  }

  lemma CountEnd(s: string, start: nat, was: nat, e: nat, k: nat)
    requires start <= was <= e < |s| && CloseAt(s, e)
    requires forall j :: was <= j < e ==> !OpenAt(s, j)
    requires Opens(s, start, was) == k == Closes(s, start, e + 1)
    ensures Balances(s, start, e)
  {
    OpensGap(s, start, was, e + 1);
  }

  /**
   * The original's way: two searches, one for nested "<%" and one for "%>", each moving one
   * occurrence on as long as the next opening comes before the current closing.
   */
  method FindClose(s: string, start: nat) returns (e: nat)
    requires OpenAt(s, start) && !CloseAt(s, start + 1)
    ensures e == Close(s, start, 0)
  {
    hide Opens, Closes, Close, Balances;
    e := Strstr(s, start, '%', '>');
    var n := start + 2;
    ghost var k := 1;
    CountStart(s, start, e);
    CloseIsFirst(s, start, start);
    NothingYet(s, start);
    while e < |s|
      invariant start + 2 <= n <= e <= |s| && (e < |s| ==> CloseAt(s, e))
      invariant Opens(s, start, n) == k
      invariant e < |s| ==> Closes(s, start, e + 1) == k
      invariant forall j :: start <= j < e ==> !Balances(s, start, j)
      decreases |s| - e
    {
      var next := Strstr(s, n, '<', '%');
      if next >= e {
        CountEnd(s, start, n, e, k);
        return;
      }
      CountNext(s, start, n, next, e, k);
      n := next + 2;
      e := Strstr(s, e + 2, '%', '>');
      k := k + 1;
    }
  }

  lemma NothingYet(s: string, a: nat)
    requires a <= |s|
    ensures Opens(s, a, a) == Closes(s, a, a) == 0
  {
  }

  // ----- the end of a start tag

  function SkipSpace(s: string, i: nat): (r: nat)
    requires i <= |s|
    ensures i <= r <= |s| && forall j :: i <= j < r ==> IsSpace(s[j])
    decreases |s| - i
  {
    if i < |s| && IsSpace(s[i]) then SkipSpace(s, i + 1) else i
  }

  function SkipName(s: string, i: nat): (r: nat)
    requires i <= |s|
    ensures i <= r <= |s| && forall j :: i <= j < r ==> NameChar(s[j])
    decreases |s| - i
  {
    if i < |s| && NameChar(s[i]) then SkipName(s, i + 1) else i
  }

  predicate IsQuote(c: char) {
    c == '"' || c == '\''
  }

  /** What one turn of the attribute loop of NsParseTagEnd comes to. */
  datatype Turn = Done(r: nat) | Malformed | More(i: nat)

  /** The value after the "=" at position `b`. */
  function ReadValue(s: string, b: nat): (t: Turn)
    requires b < |s|
    ensures t.More? ==> b < t.i <= |s|
    ensures !t.Done?
  {
    var v := SkipSpace(s, b + 1);
    if v == |s| then Malformed
    else if IsQuote(s[v]) then
      var q := Find(s, v + 1, s[v]);
      if q == |s| then Malformed else More(q + 1)
    else if !FirstChar(s[v]) then Malformed
    else More(SkipName(s, v + 1))
  }

  /** One attribute, or the closing ">", from position `i`. */
  function ReadAttribute(s: string, i: nat): (t: Turn)
    requires i <= |s|
    ensures t.Done? ==> i <= t.r < |s| && s[t.r] == '>'
    ensures t.More? ==> i < t.i <= |s|
  {
    var a := SkipSpace(s, i);
    if At(s, a, '>') then Done(a)
    else if a == |s| || !FirstChar(s[a]) then Malformed
    else
      var b := SkipSpace(s, SkipName(s, a + 1));
      if At(s, b, '>') then Done(b)
      else if !At(s, b, '=') then Malformed
      else ReadValue(s, b)
  }

  /** The attribute loop: the position of the closing ">" if all of it looks like attributes. */
  function AttributesEnd(s: string, i: nat): (r: Option<nat>)
    requires i <= |s|
    ensures r.Some? ==> i <= r.value < |s| && s[r.value] == '>'
    decreases |s| - i
  {
    match ReadAttribute(s, i)
    case Done(r) => Some(r)
    case Malformed => None
    case More(j) => AttributesEnd(s, j)
  }

  /** NsParseTagEnd for a tag that begins at `i`; the fallback is the first ">". */
  function TagEnd(s: string, i: nat): (r: nat)
    requires i < |s|
    ensures i <= r <= |s| && (r < |s| ==> s[r] == '>')
  {
    if i + 1 == |s| || !FirstChar(s[i + 1]) then Find(s, i, '>')
    else
      var a := SkipName(s, i + 2);
      if a == |s| || (s[a] != '>' && !IsSpace(s[a])) then Find(s, i, '>')
      else
        var r := AttributesEnd(s, a);
        if r.Some? then r.value else Find(s, i, '>')
  }

  // A reader that knows only quotes: a quoted value starts with a quote after "=" and
  // optional white space, and runs to the next quote of the same kind.
  datatype Quoting = Plain | AfterEq | Inside(q: char)

  function ReadChar(t: Quoting, c: char): Quoting {
    match t
    case Inside(q) => if c == q then Plain else t
    case AfterEq => if IsSpace(c) then AfterEq else if IsQuote(c) then Inside(c)
                    else if c == '=' then AfterEq else Plain
    case Plain => if c == '=' then AfterEq else Plain
  }

  /** What the reader knows after `s[i..p]`. */
  function Read(s: string, i: nat, p: nat): Quoting
    requires i <= p <= |s|
  {
    if i == p then Plain else ReadChar(Read(s, i, p - 1), s[p - 1])
  }

  /** Position `p` of the tag that begins at `i` lies inside a quoted attribute value. */
  predicate Quoted(s: string, i: nat, p: nat)
    requires i <= p <= |s|
  {
    Read(s, i, p).Inside?
  }

  lemma ReadStep(s: string, i: nat, p: nat)
    requires i <= p < |s|
    ensures Read(s, i, p + 1) == ReadChar(Read(s, i, p), s[p])
  {
  }

  lemma {:induction false} ReadSpaces(s: string, i: nat, a: nat, b: nat)
    requires i <= a <= b <= |s| && forall j :: a <= j < b ==> IsSpace(s[j])
    requires !Quoted(s, i, a)
    ensures Read(s, i, b) == Read(s, i, a)
  {
    if a < b {
      ReadSpaces(s, i, a, b - 1);
    }
  }

  lemma {:induction false} ReadName(s: string, i: nat, a: nat, b: nat)
    requires i <= a <= b <= |s| && forall j :: a <= j < b ==> NameChar(s[j])
    requires !Quoted(s, i, a) && (a == b ==> Read(s, i, a) == Plain)
    ensures Read(s, i, b) == Plain
    decreases b - a
  {
    if a + 1 < b {
      ReadName(s, i, a, b - 1);
    }
  }

  lemma {:induction false} ReadQuoted(s: string, i: nat, a: nat, b: nat, q: char)
    requires i <= a <= b <= |s| && Read(s, i, a) == Inside(q) && forall j :: a <= j < b ==> s[j] != q
    ensures forall j :: a <= j <= b ==> Read(s, i, j) == Inside(q)
  {
    if a < b {
      ReadQuoted(s, i, a, b - 1, q);
    }
  }

  /** Every ">" between `a` and `b` is inside a quoted value. */
  predicate AllQuoted(s: string, i: nat, a: nat, b: nat)
    requires i <= a <= b <= |s|
  {
    forall p :: a <= p < b && s[p] == '>' ==> Quoted(s, i, p)
  }

  lemma ValueQuoted(s: string, i: nat, b: nat)
    requires i <= b < |s| && s[b] == '=' && Read(s, i, b) == Plain
    ensures var t := ReadValue(s, b);
            t.More? ==> Read(s, i, t.i) == Plain && AllQuoted(s, i, b, t.i)
  {
    hide Read, Find, SkipSpace, SkipName;
    var v := SkipSpace(s, b + 1);
    ReadStep(s, i, b);
    ReadSpaces(s, i, b + 1, v);
    if v < |s| && IsQuote(s[v]) {
      var q := Find(s, v + 1, s[v]);
      ReadStep(s, i, v);
      ReadQuoted(s, i, v + 1, q, s[v]);
      if q < |s| {
        ReadStep(s, i, q);
      }
    } else if v < |s| && FirstChar(s[v]) {
      ReadName(s, i, v, SkipName(s, v + 1));
    }
  }

  lemma AttributeQuoted(s: string, i: nat, a: nat)
    requires i <= a <= |s| && Read(s, i, a) == Plain
    ensures var t := ReadAttribute(s, a);
            && (t.Done? ==> AllQuoted(s, i, a, t.r))
            && (t.More? ==> Read(s, i, t.i) == Plain && AllQuoted(s, i, a, t.i))
  {
    hide Read, Find, SkipSpace, SkipName, ReadValue, ReadChar;
    var x := SkipSpace(s, a);
    ReadSpaces(s, i, a, x);
    if x < |s| && FirstChar(s[x]) {
      var n := SkipName(s, x + 1);
      ReadName(s, i, x, n);
      var b := SkipSpace(s, n);
      ReadSpaces(s, i, n, b);
      if At(s, b, '=') {
        ValueQuoted(s, i, b);
      }
    }
  }

  /** Every ">" passed over by the attribute loop lies inside a quoted value. */
  lemma {:induction false} AttributesQuoted(s: string, i: nat, a: nat)
    requires i <= a <= |s| && Read(s, i, a) == Plain
    ensures var r := AttributesEnd(s, a);
            r.Some? ==> AllQuoted(s, i, a, r.value)
    decreases |s| - a
  {
    hide Read, ReadAttribute;
    AttributeQuoted(s, i, a);
    var t := ReadAttribute(s, a);
    if t.More? {
      AttributesQuoted(s, i, t.i);
    }
  }

  /**
   * NsParseTagEnd answers with nothing exactly when no ">" follows; otherwise every earlier
   * ">" of the tag lies inside a quoted attribute value.
   */
  lemma TagEndSkipsQuotedOnly(s: string, i: nat)
    requires i < |s| && s[i] == '<'
    ensures TagEnd(s, i) == |s| <==> forall p :: i <= p < |s| ==> s[p] != '>'
    ensures forall p :: i <= p < TagEnd(s, i) && s[p] == '>' ==> Quoted(s, i, p)
  {
    hide Find, AttributesEnd, SkipName;
    assert Read(s, i, i + 1) == Plain;
    if i + 1 < |s| && FirstChar(s[i + 1]) {
      var a := SkipName(s, i + 2);
      ReadName(s, i, i + 1, a);
      AttributesQuoted(s, i, a);
    }
  }

  /** Without a quoted ">" the answer is the first ">", as in older releases. */
  lemma TagEndAgreesWithLegacy(s: string, i: nat)
    requires i < |s| && s[i] == '<'
    requires forall p :: i <= p < |s| && s[p] == '>' ==> !Quoted(s, i, p)
    ensures TagEnd(s, i) == Find(s, i, '>')
  {
    TagEndSkipsQuotedOnly(s, i);
  }

  method PassSpaces(s: string, i: nat) returns (r: nat)
    requires i <= |s|
    ensures r == SkipSpace(s, i) && (r < |s| ==> !IsSpace(s[r]))
  {
    r := i;
    while r < |s| && IsSpace(s[r])
      invariant i <= r <= |s| && SkipSpace(s, r) == SkipSpace(s, i)
    {
      r := r + 1;
    }
  }

  method PassName(s: string, i: nat) returns (r: nat)
    requires i <= |s|
    ensures r == SkipName(s, i)
  {
    r := i;
    while r < |s| && NameChar(s[r])
      invariant i <= r <= |s| && SkipName(s, r) == SkipName(s, i)
    {
      r := r + 1;
    }
  }

  /** The value part of the attribute loop of NsParseTagEnd. */
  method PassValue(s: string, eq: nat) returns (t: Turn)
    requires eq < |s|
    ensures t == ReadValue(s, eq)
  {
    hide Find, SkipSpace, SkipName;
    var p := PassSpaces(s, eq + 1);
    if p == |s| {
      return Malformed;
    }
    if IsQuote(s[p]) {
      p := Strchr(s, p + 1, s[p]);
      t := if p == |s| then Malformed else More(p + 1);
    } else {
      if !FirstChar(s[p]) {
        return Malformed;
      }
      p := PassName(s, p + 1);
      t := More(p);
    }
  }

  /** One turn of the attribute loop of NsParseTagEnd. */
  method PassAttribute(s: string, i: nat) returns (t: Turn)
    requires i <= |s|
    ensures t == ReadAttribute(s, i)
  {
    hide Find, SkipSpace, SkipName, ReadValue;
    var p := PassSpaces(s, i);
    if p < |s| && s[p] == '>' {
      return Done(p);
    }
    if p == |s| || !FirstChar(s[p]) {
      return Malformed;
    }
    p := PassName(s, p + 1);
    p := PassSpaces(s, p);
    if p < |s| && s[p] == '>' {
      return Done(p);
    }
    if p == |s| || s[p] != '=' {
      return Malformed;
    }
    t := PassValue(s, p);
  }

  /** NsParseTagEnd, with its loop and its fallbacks. */
  method ParseTagEnd(s: string, i: nat) returns (r: nat)
    requires i < |s|
    ensures r == TagEnd(s, i)
  {
    hide Find, SkipName, ReadAttribute;
    r := Strchr(s, i, '>');
    if i + 1 == |s| || !FirstChar(s[i + 1]) {
      return;
    }
    var p := PassName(s, i + 2);
    if p == |s| || (s[p] != '>' && !IsSpace(s[p])) {
      return;
    }
    ghost var a := p;
    while true
      invariant a <= p <= |s| && AttributesEnd(s, p) == AttributesEnd(s, a)
      decreases |s| - p
    {
      var t := PassAttribute(s, p);
      match t
      case Done(end) => return end;
      case Malformed => return;
      case More(next) => p := next;
    }
  }
}
