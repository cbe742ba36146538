/**
 * The Content-Type scanner of nsd/conn.c: ParseContentTypeSuffix and
 * NsParseContentTypeParams.  The results are slices of the header, given by their bounds.
 */
module ContentType {
  import opened Prelude
  import opened Chars

  /** The characters from `start` up to `end`. */
  datatype Span = Span(start: nat, end: nat)

  // ----- the suffix

  /**
   * What the suffix is: the part of the subtype, which begins after the first "/", that
   * follows its last "+".  There is none if nothing follows.
   */
  ghost predicate IsSuffix(s: string, start: nat, end: nat, r: Option<Span>)
    requires start <= end <= |s|
  {
    match r
    case Some(span) =>
      && start + 2 <= span.start < span.end == end && s[span.start - 1] == '+'
      && (exists slash :: start <= slash < span.start - 1 && s[slash] == '/')
      && forall j :: span.start <= j < end ==> s[j] != '+'
    case None =>
      forall slash, plus :: start <= slash < plus < end - 1 && s[slash] == '/' && s[plus] == '+' ==> s[end - 1] == '+'
  }

  /** There is only one such part. */
  lemma SuffixIsUnique(s: string, start: nat, end: nat, a: Option<Span>, b: Option<Span>)
    requires start <= end <= |s| && IsSuffix(s, start, end, a) && IsSuffix(s, start, end, b)
    ensures a == b
  {
    if a.Some? && b.Some? {
      assert s[a.value.start - 1] == '+' && s[b.value.start - 1] == '+';
    }
  }

  method ParseContentTypeSuffix(s: string, start: nat, end: nat) returns (r: Option<Span>)
    requires start <= end <= |s|
    ensures IsSuffix(s, start, end, r)
  {
    r := None;
    var slash := start;
    while slash < end && s[slash] != '/'
      invariant start <= slash <= end && forall j :: start <= j < slash ==> s[j] != '/'
    {
      slash := slash + 1;
    }
    if slash == end || slash + 1 >= end {
      return;
    }
    var plus := None;
    var q := slash + 1;
    while q < end
      invariant slash < q <= end
      invariant plus.None? ==> forall j :: slash < j < q ==> s[j] != '+'
      invariant plus.Some? ==> slash < plus.value < q && s[plus.value] == '+'
                               && forall j :: plus.value < j < q ==> s[j] != '+'
    {
      if s[q] == '+' {
        plus := Some(q);
      }
      q := q + 1;
    }
    if plus.Some? && plus.value + 1 < end {
      r := Some(Span(plus.value + 1, end));
    }
  }

  // ----- the parameters: the specification

  predicate Separator(c: char) {
    c == ';' || IsSpace(c)
  }

  /** The first position from `i` on that is no separator, or `e`. */
  function SkipSeparators(s: string, i: nat, e: nat): (r: nat)
    requires i <= e <= |s|
    ensures i <= r <= e && (r < e ==> !Separator(s[r]))
    ensures forall j :: i <= j < r ==> Separator(s[j])
    decreases e - i
  {
    if i < e && Separator(s[i]) then SkipSeparators(s, i + 1, e) else i
  }

  /** The first position from `i` on that is not white space, or `e`. */
  function SkipBlanks(s: string, i: nat, e: nat): (r: nat)
    requires i <= e <= |s|
    ensures i <= r <= e && (r < e ==> !IsSpace(s[r]))
    ensures forall j :: i <= j < r ==> IsSpace(s[j])
    decreases e - i
  {
    if i < e && IsSpace(s[i]) then SkipBlanks(s, i + 1, e) else i
  }

  /** The first `c` or `d` from `i` on, or `e`. */
  function Upto(s: string, i: nat, e: nat, c: char, d: char): (r: nat)
    requires i <= e <= |s|
    ensures i <= r <= e && (r < e ==> s[r] == c || s[r] == d)
    ensures forall j :: i <= j < r ==> s[j] != c && s[j] != d
    decreases e - i
  {
    if i < e && s[i] != c && s[i] != d then Upto(s, i + 1, e, c, d) else i
  }

  /** The end of what is left of `s[a..b]` when white space at the end is cut. */
  function CutBlanks(s: string, a: nat, b: nat): (r: nat)
    requires a <= b <= |s|
    ensures a <= r <= b && (a < r ==> !IsSpace(s[r - 1]))
    ensures forall j :: r <= j < b ==> IsSpace(s[j])
  {
    if a < b && IsSpace(s[b - 1]) then CutBlanks(s, a, b - 1) else b
  }

  /** A parameter: where its name and its value are. */
  datatype Found = Found(name: Span, value: Span)

  /** The value that begins at `v`, after blanks were skipped, and where scanning goes on. */
  function ValueAt(s: string, v: nat, e: nat): (r: (Span, nat))
    requires v <= e <= |s|
    ensures v <= r.0.start <= r.0.end <= r.1 <= e
  {
    if v == e || s[v] == ';' then (Span(v, v), v)
    else if s[v] == '"' then
      var end := Upto(s, v + 1, e, '"', '"');
      (Span(v + 1, end), if end < e then end + 1 else end)
    else
      var end := Upto(s, v, e, ';', ';');
      (Span(v, CutBlanks(s, v, end)), end)
  }

  /** One turn of the loop, on text that is not a separator: where it goes on, and what it found. */
  function NextParam(s: string, p: nat, e: nat): (r: (nat, Option<Found>))
    requires p < e <= |s| && !Separator(s[p])
    ensures p < r.0 <= e
    ensures r.1.Some? ==>
              p <= r.1.value.name.start < r.1.value.name.end < r.1.value.value.start <= r.1.value.value.end <= r.0
  {
    var eq := Upto(s, p, e, '=', ';');
    var end := CutBlanks(s, p, eq);
    if end == p || eq == e || s[eq] != '=' then (Upto(s, eq, e, ';', ';'), None)
    else
      var (value, next) := ValueAt(s, SkipBlanks(s, eq + 1, e), e);
      (next, Some(Found(Span(p, end), value)))
  }

  datatype Params = Params(charset: Option<Span>, boundary: Option<Span>)

  function Record(s: string, f: Found, acc: Params): Params
    requires f.name.start <= f.name.end <= |s|
  {
    var name := Lower(s[f.name.start..f.name.end]);
    if name == "charset" then acc.(charset := Some(f.value))
    else if name == "boundary" then acc.(boundary := Some(f.value))
    else acc
  }

  /** The loop of NsParseContentTypeParams. */
  function Scan(s: string, p: nat, e: nat, acc: Params): Params
    requires p <= e <= |s|
    decreases e - p
  {
    var q := SkipSeparators(s, p, e);
    if q == e then acc
    else
      var (next, found) := NextParam(s, q, e);
      Scan(s, next, e, if found.Some? then Record(s, found.value, acc) else acc)
  }

  predicate InBounds(r: Option<Span>, p: nat, e: nat) {
    r.Some? ==> p <= r.value.start <= r.value.end <= e
  }

  /** All returned slices lie in the text that was scanned. */
  lemma {:induction false} ScanInBounds(s: string, p: nat, e: nat, acc: Params, lo: nat)
    requires lo <= p <= e <= |s| && InBounds(acc.charset, lo, e) && InBounds(acc.boundary, lo, e)
    ensures var r := Scan(s, p, e, acc); InBounds(r.charset, lo, e) && InBounds(r.boundary, lo, e)
    decreases e - p
  {
    hide Lower, NextParam, SkipSeparators;
    var q := SkipSeparators(s, p, e);
    if q < e {
      var (next, found) := NextParam(s, q, e);
      ScanInBounds(s, next, e, if found.Some? then Record(s, found.value, acc) else acc, lo);
    }
  }

  // ----- the imperative form

  method NsParseContentTypeParams(s: string, typeStart: nat, typeEnd: nat, start: nat, e: nat)
    returns (params: Params, suffix: Option<Span>)
    requires typeStart <= typeEnd <= |s| && start <= e <= |s|
    ensures params == Scan(s, start, e, Params(None, None)) && IsSuffix(s, typeStart, typeEnd, suffix)
  {
    hide Record, IsSuffix;
    suffix := ParseContentTypeSuffix(s, typeStart, typeEnd);
    params := Params(None, None);
    var p := start;
    while p < e
      invariant start <= p <= e && Scan(s, p, e, params) == Scan(s, start, e, Params(None, None))
      decreases e - p
    {
      var q := p;
      while q < e && Separator(s[q])
        invariant p <= q <= e && SkipSeparators(s, q, e) == SkipSeparators(s, p, e)
      {
        q := q + 1;
      }
      if q == e {
        break;
      }
      var next, found := ParseParam(s, q, e);
      if found.Some? {
        params := Record(s, found.value, params);
      }
      p := next;
    }
  }

  /** The part of a turn that finds the name: where it ends, and where the "=" is. */
  method ParseName(s: string, start: nat, e: nat) returns (p: nat, end: nat)
    requires start <= e <= |s|
    ensures p == Upto(s, start, e, '=', ';') && end == CutBlanks(s, start, p)
  {
    p := start;
    while p < e && s[p] != '=' && s[p] != ';'
      invariant start <= p <= e && Upto(s, p, e, '=', ';') == Upto(s, start, e, '=', ';')
    {
      p := p + 1;
    }
    end := p;
    while start < end && IsSpace(s[end - 1])
      invariant start <= end <= p && CutBlanks(s, start, end) == CutBlanks(s, start, p)
    {
      end := end - 1;
    }
  }

  /** One turn of the loop. */
  method ParseParam(s: string, start: nat, e: nat) returns (next: nat, found: Option<Found>)
    requires start < e <= |s| && !Separator(s[start])
    ensures (next, found) == NextParam(s, start, e)
  {
    hide ValueAt, Upto, CutBlanks;
    var p, end := ParseName(s, start, e);
    if end == start || p >= e || s[p] != '=' {
      next := ScanTo(s, p, e, ';');
      found := None;
      return;
    }
    p := p + 1;
    ghost var v := p;
    while p < e && IsSpace(s[p])
      invariant v <= p <= e && SkipBlanks(s, p, e) == SkipBlanks(s, v, e)
    {
      p := p + 1;
    }
    var value;
    value, next := ParseValue(s, p, e);
    found := Some(Found(Span(start, end), value));
  }

  method ParseValue(s: string, v: nat, e: nat) returns (value: Span, next: nat)
    requires v <= e <= |s|
    ensures (value, next) == ValueAt(s, v, e)
  {
    if v == e || s[v] == ';' {
      value, next := Span(v, v), v;
    } else if s[v] == '"' {
      next := ScanTo(s, v + 1, e, '"');
      value := Span(v + 1, next);
      if next < e {
        next := next + 1;
      }
    } else {
      next := ScanTo(s, v, e, ';');
      var end := next;
      while v < end && IsSpace(s[end - 1])
        invariant v <= end <= next && CutBlanks(s, v, end) == CutBlanks(s, v, next)
      {
        end := end - 1;
      }
      value := Span(v, end);
    }
  }

  method ScanTo(s: string, p: nat, e: nat, c: char) returns (r: nat)
    requires p <= e <= |s|
    ensures r == Upto(s, p, e, c, c)
  {
    r := p;
    while r < e && s[r] != c
      invariant p <= r <= e && Upto(s, r, e, c, c) == Upto(s, p, e, c, c)
    {
      r := r + 1;
    }
  }

  // ----- reading back a printed list

  /**
   * A parameter as it may be written: a separator that begins with ";", the name, "=" with
   * blanks around it, the value with or without quotes, and blanks after it.
   */
  datatype Param = Param(
    sep: string, name: string, before: string, after: string, value: string, quoted: bool, closed: bool, trailing: string)

  predicate Free(s: string, c: char, d: char) {
    forall i :: 0 <= i < |s| ==> s[i] != c && s[i] != d
  }

  predicate ParamOk(p: Param) {
    && SepOk(p.sep)
    && p.name != "" && Trimmed(p.name) && Free(p.name, '=', ';')
    && Blank(p.before) && Blank(p.after) && Blank(p.trailing)
    && (if p.quoted then Free(p.value, '"', '"')
        else Trimmed(p.value) && Free(p.value, ';', ';') && !At(p.value, 0, '"'))
    && (Open(p) ==> p.trailing == "")
  }

  /** A quoted value whose closing quote is missing. */
  predicate Open(p: Param) {
    p.quoted && !p.closed
  }

  predicate SepOk(sep: string) {
    sep != "" && sep[0] == ';' && forall i :: 0 <= i < |sep| ==> Separator(sep[i])
  }

  function Written(p: Param): string {
    if p.quoted then "\"" + p.value + (if p.closed then "\"" else "") else p.value
  }

  function Print(p: Param): string {
    p.sep + p.name + p.before + "=" + p.after + Written(p) + p.trailing
  }

  /** A part of the list: a parameter, or something that is none. */
  datatype Part = Given(p: Param) | NoValue(sep: string, text: string)

  /** Text that is no parameter has no "=", or nothing before it. */
  predicate PartOk(x: Part) {
    match x
    case Given(p) => ParamOk(p)
    case NoValue(sep, text) =>
      SepOk(sep) && text != "" && !Separator(text[0]) && Free(text, ';', ';') && (text[0] == '=' || Free(text, '=', '='))
  }

  /** A value without its closing quote takes all the rest, so nothing can follow it. */
  predicate PartsOk(ps: seq<Part>) {
    && (forall i :: 0 <= i < |ps| ==> PartOk(ps[i]))
    && (forall i :: 0 <= i < |ps| - 1 && ps[i].Given? ==> !Open(ps[i].p))
  }

  function PrintPart(x: Part): string {
    match x
    case Given(p) => Print(p)
    case NoValue(sep, text) => sep + text
  }

  function PrintAll(ps: seq<Part>): string {
    if ps == [] then "" else PrintPart(ps[0]) + PrintAll(ps[1..])
  }

  /** The value of the last parameter with the given name, in any mix of cases. */
  function LastValue(ps: seq<Part>, name: string): Option<string> {
    if ps == [] then None
    else
      var later := LastValue(ps[1..], name);
      if later.Some? then later else ValueOf(ps[0], name)
  }

  function ValueOf(x: Part, name: string): Option<string> {
    if x.Given? && Lower(x.p.name) == name then Some(x.p.value) else None
  }

  /** The text of a slice. */
  function TextOf(s: string, r: Option<Span>): Option<string> {
    if r.Some? && r.value.start <= r.value.end <= |s| then Some(s[r.value.start..r.value.end]) else None
  }

  // ----- where the parts of a printed parameter are

  /** The positions of the name, of the "=", of the value and of its end. */
  datatype Layout = Layout(name: nat, nameEnd: nat, eq: nat, value: nat, valueEnd: nat, end: nat)

  function LayoutOf(p: Param, o: nat): Layout {
    var name := o + |p.sep|;
    var nameEnd := name + |p.name|;
    var eq := nameEnd + |p.before|;
    var value := eq + 1 + |p.after|;
    var valueEnd := value + |Written(p)|;
    Layout(name, nameEnd, eq, value, valueEnd, valueEnd + |p.trailing|)
  }

  ghost predicate Laid(s: string, o: nat, p: Param) {
    var l := LayoutOf(p, o);
    && Holds(s, o, p.sep) && Holds(s, l.name, p.name) && Holds(s, l.nameEnd, p.before) && Holds(s, l.eq, "=")
    && Holds(s, l.eq + 1, p.after) && Holds(s, l.value, Written(p)) && Holds(s, l.valueEnd, p.trailing)
  }

  lemma PrintedIsLaid(s: string, o: nat, p: Param)
    requires Holds(s, o, Print(p))
    ensures Laid(s, o, p) && LayoutOf(p, o).end == o + |Print(p)|
  {
    hide Holds, Written;
    var t1 := p.sep + p.name;
    var t2 := t1 + p.before;
    var t3 := t2 + "=";
    var t4 := t3 + p.after;
    var t5 := t4 + Written(p);
    HoldsParts(s, o, t5, p.trailing);
    HoldsParts(s, o, t4, Written(p));
    HoldsParts(s, o, t3, p.after);
    HoldsParts(s, o, t2, "=");
    HoldsParts(s, o, t1, p.before);
    HoldsParts(s, o, p.sep, p.name);
  }

  /** The text ends at `q`, or the next separator begins there. */
  predicate Stops(s: string, q: nat, e: nat) {
    q <= e <= |s| && (q < e ==> s[q] == ';')
  }

  lemma NameFound(s: string, o: nat, p: Param, e: nat)
    requires ParamOk(p) && Laid(s, o, p) && Stops(s, LayoutOf(p, o).end, e)
    ensures var l := LayoutOf(p, o);
            && SkipSeparators(s, o, e) == l.name < e && !Separator(s[l.name])
            && Upto(s, l.name, e, '=', ';') == l.eq && CutBlanks(s, l.name, l.eq) == l.nameEnd && s[l.eq] == '='
  {
    hide Written, Holds;
    var l := LayoutOf(p, o);
    HoldsFits(s, l.valueEnd, p.trailing);
    HoldsAt(s, o, p.sep);
    HoldsAt(s, l.name, p.name);
    HoldsAt(s, l.nameEnd, p.before);
    HoldsAt(s, l.eq, "=");
    assert s[l.name] == p.name[0];
    assert s[l.nameEnd - 1] == p.name[|p.name| - 1];
    assert s[l.eq] == '=';
    assert forall j :: l.nameEnd <= j < l.eq ==> IsSpace(s[j]);
    assert forall j :: l.name <= j < l.eq ==> s[j] != '=' && s[j] != ';';
  }

  /** The value, and the position after it: at most blanks lie between there and the end. */
  lemma ValueFound(s: string, o: nat, p: Param, e: nat)
    requires ParamOk(p) && Laid(s, o, p) && Stops(s, LayoutOf(p, o).end, e) && (Open(p) ==> LayoutOf(p, o).end == e)
    ensures var l := LayoutOf(p, o);
            var v := ValueAt(s, SkipBlanks(s, l.eq + 1, e), e);
            ReadAs(s, v.0, v.1, l.end, p.value)
  {
    hide *;
    if p.quoted {
      QuotedValueFound(s, o, p, e);
    } else {
      PlainValueFound(s, o, p, e);
    }
  }

  lemma QuotedValueFound(s: string, o: nat, p: Param, e: nat)
    requires p.quoted
    requires ParamOk(p) && Laid(s, o, p) && Stops(s, LayoutOf(p, o).end, e) && (Open(p) ==> LayoutOf(p, o).end == e)
    ensures var l := LayoutOf(p, o);
            var v := ValueAt(s, SkipBlanks(s, l.eq + 1, e), e);
            ReadAs(s, v.0, v.1, l.end, p.value)
  {
    hide ValueAt, SkipBlanks, ParamOk, Laid, Holds, Written, Trimmed, Free, ReadAs, IsSpace, At;
    var l := LayoutOf(p, o);
    LaidChars(s, o, p);
    WrittenIs(p);
    ParamValue(p);
    if Open(p) {
      OpenFound(s, p, l, e);
      IsReadAs(s, Span(l.value + 1, l.end), l.end, l.end, p.value);
    } else {
      QuotedFound(s, p, l, e);
      IsReadAs(s, Span(l.value + 1, l.valueEnd - 1), l.valueEnd, l.end, p.value);
    }
  }

  lemma PlainValueFound(s: string, o: nat, p: Param, e: nat)
    requires !p.quoted && ParamOk(p) && Laid(s, o, p) && Stops(s, LayoutOf(p, o).end, e)
    ensures var l := LayoutOf(p, o);
            var v := ValueAt(s, SkipBlanks(s, l.eq + 1, e), e);
            ReadAs(s, v.0, v.1, l.end, p.value)
  {
    hide ValueAt, SkipBlanks, ParamOk, Laid, Holds, Written, Trimmed, Free, ReadAs, IsSpace, At;
    var l := LayoutOf(p, o);
    LaidChars(s, o, p);
    WrittenIs(p);
    ParamValue(p);
    if p.value == "" {
      EmptyFound(s, l, e);
      IsReadAs(s, Span(l.end, l.end), l.end, l.end, "");
    } else {
      TokenFound(s, p, l, e);
      IsReadAs(s, Span(l.value, l.valueEnd), l.end, l.end, p.value);
    }
  }

  /** The slice is `text`, and only blanks follow from `next` to `end`. */
  ghost predicate ReadAs(s: string, value: Span, next: nat, end: nat, text: string) {
    && value.start <= value.end <= |s| && s[value.start..value.end] == text
    && next <= end <= |s| && forall j :: next <= j < end ==> IsSpace(s[j])
  }

  lemma IsReadAs(s: string, value: Span, next: nat, end: nat, text: string)
    requires value.start <= value.end <= |s| && s[value.start..value.end] == text
    requires next <= end <= |s| && forall j :: next <= j < end ==> IsSpace(s[j])
    ensures ReadAs(s, value, next, end, text)
  {
  }

  lemma LaidChars(s: string, o: nat, p: Param)
    requires ParamOk(p) && Laid(s, o, p)
    ensures var l := LayoutOf(p, o);
            && l.end <= |s|
            && (forall j :: l.eq + 1 <= j < l.value ==> IsSpace(s[j]))
            && (forall j :: l.value <= j < l.valueEnd ==> s[j] == Written(p)[j - l.value])
            && (forall j :: l.valueEnd <= j < l.end ==> IsSpace(s[j]))
  {
    hide Holds, Written;
    var l := LayoutOf(p, o);
    HoldsFits(s, l.valueEnd, p.trailing);
    HoldsAt(s, l.eq + 1, p.after);
    HoldsAt(s, l.value, Written(p));
    HoldsAt(s, l.valueEnd, p.trailing);
  }

  lemma WrittenIs(p: Param)
    ensures if Open(p) then |Written(p)| == |p.value| + 1
            else if p.quoted then |Written(p)| == |p.value| + 2 else Written(p) == p.value
  {
  }

  lemma ParamValue(p: Param)
    requires ParamOk(p)
    ensures if p.quoted then Free(p.value, '"', '"')
            else Trimmed(p.value) && Free(p.value, ';', ';') && !At(p.value, 0, '"')
    ensures Open(p) ==> p.trailing == ""
  {
  }

  /** A value without its closing quote goes on to the end. */
  lemma OpenFound(s: string, p: Param, l: Layout, e: nat)
    requires Open(p) && Free(p.value, '"', '"')
    requires l.eq + 1 <= l.value && l.valueEnd == l.value + |p.value| + 1 == l.end == e <= |s|
    requires forall j :: l.eq + 1 <= j < l.value ==> IsSpace(s[j])
    requires forall j :: l.value <= j < l.valueEnd ==> s[j] == Written(p)[j - l.value]
    ensures ValueAt(s, SkipBlanks(s, l.eq + 1, e), e) == (Span(l.value + 1, l.end), l.end)
    ensures s[l.value + 1..l.end] == p.value
  {
    hide Written;
    OpenText(s, p, l.value);
    assert SkipBlanks(s, l.eq + 1, e) == l.value;
    forall j | l.value + 1 <= j < e ensures s[j] != '"' {
      assert s[j] == s[l.value + 1..e][j - l.value - 1];
    }
    assert Upto(s, l.value + 1, e, '"', '"') == e;
  }

  lemma OpenText(s: string, p: Param, v: nat)
    requires Open(p) && v + |p.value| + 1 <= |s|
    requires forall j :: v <= j < v + |p.value| + 1 ==> s[j] == Written(p)[j - v]
    ensures s[v] == '"' && s[v + 1..v + 1 + |p.value|] == p.value
  {
    var w := Written(p);
    assert w == "\"" + p.value;
    forall i | 0 <= i < |p.value| ensures s[v + 1..v + 1 + |p.value|][i] == p.value[i] {
      assert s[v + 1 + i] == w[1 + i] == p.value[i];
    }
  }

  lemma EmptyFound(s: string, l: Layout, e: nat)
    requires l.eq + 1 <= l.value == l.valueEnd <= l.end && Stops(s, l.end, e)
    requires forall j :: l.eq + 1 <= j < l.value ==> IsSpace(s[j])
    requires forall j :: l.valueEnd <= j < l.end ==> IsSpace(s[j])
    ensures ValueAt(s, SkipBlanks(s, l.eq + 1, e), e) == (Span(l.end, l.end), l.end)
  {
    assert SkipBlanks(s, l.eq + 1, e) == l.end;
  }

  lemma TokenFound(s: string, p: Param, l: Layout, e: nat)
    requires p.value != "" && Trimmed(p.value) && Free(p.value, ';', ';') && !At(p.value, 0, '"')
    requires l.eq + 1 <= l.value && l.valueEnd == l.value + |p.value| <= l.end && Stops(s, l.end, e)
    requires forall j :: l.eq + 1 <= j < l.value ==> IsSpace(s[j])
    requires forall j :: l.value <= j < l.valueEnd ==> s[j] == p.value[j - l.value]
    requires forall j :: l.valueEnd <= j < l.end ==> IsSpace(s[j])
    ensures ValueAt(s, SkipBlanks(s, l.eq + 1, e), e) == (Span(l.value, l.valueEnd), l.end)
    ensures s[l.value..l.valueEnd] == p.value
  {
    assert s[l.value] == p.value[0] && s[l.valueEnd - 1] == p.value[|p.value| - 1];
    assert SkipBlanks(s, l.eq + 1, e) == l.value;
    assert Upto(s, l.value, e, ';', ';') == l.end;
    assert CutBlanks(s, l.value, l.end) == l.valueEnd;
  }

  lemma QuotedText(s: string, p: Param, v: nat)
    requires p.quoted && p.closed && v + |p.value| + 2 <= |s|
    requires forall j :: v <= j < v + |p.value| + 2 ==> s[j] == Written(p)[j - v]
    ensures s[v] == '"' && s[v + 1 + |p.value|] == '"' && s[v + 1..v + 1 + |p.value|] == p.value
  {
    var w := Written(p);
    assert w[0] == '"' && w[1 + |p.value|] == '"';
    assert s[v + 1 + |p.value|] == w[1 + |p.value|];
    forall i | 0 <= i < |p.value| ensures s[v + 1..v + 1 + |p.value|][i] == p.value[i] {
      assert s[v + 1 + i] == w[1 + i] == p.value[i];
    }
  }

  lemma QuotedFound(s: string, p: Param, l: Layout, e: nat)
    requires p.quoted && p.closed && Free(p.value, '"', '"')
    requires l.eq + 1 <= l.value && l.valueEnd == l.value + |p.value| + 2 <= l.end <= e <= |s|
    requires forall j :: l.eq + 1 <= j < l.value ==> IsSpace(s[j])
    requires forall j :: l.value <= j < l.valueEnd ==> s[j] == Written(p)[j - l.value]
    ensures ValueAt(s, SkipBlanks(s, l.eq + 1, e), e) == (Span(l.value + 1, l.valueEnd - 1), l.valueEnd)
    ensures s[l.value + 1..l.valueEnd - 1] == p.value
  {
    hide Written;
    QuotedText(s, p, l.value);
    assert SkipBlanks(s, l.eq + 1, e) == l.value;
    forall j | l.value + 1 <= j < l.valueEnd - 1 ensures s[j] != '"' {
      assert s[j] == s[l.value + 1..l.valueEnd - 1][j - l.value - 1];
    }
    assert Upto(s, l.value + 1, e, '"', '"') == l.valueEnd - 1;
  }

  /** One turn of the loop on a printed parameter. */
  lemma ParamFound(s: string, o: nat, p: Param, e: nat) returns (f: Found)
    requires ParamOk(p) && Holds(s, o, Print(p)) && Stops(s, o + |Print(p)|, e) && (Open(p) ==> o + |Print(p)| == e)
    ensures f.name.start <= f.name.end <= |s| && s[f.name.start..f.name.end] == p.name
    ensures f.value.start <= f.value.end <= |s| && s[f.value.start..f.value.end] == p.value
    ensures forall acc :: Scan(s, o, e, acc) == Scan(s, o + |Print(p)|, e, Record(s, f, acc))
  {
    hide ParamOk, Laid, ValueAt, Record, Scan;
    PrintedIsLaid(s, o, p);
    NameFound(s, o, p, e);
    ValueFound(s, o, p, e);
    var l := LayoutOf(p, o);
    var (value, next) := ValueAt(s, SkipBlanks(s, l.eq + 1, e), e);
    f := Found(Span(l.name, l.nameEnd), value);
    assert s[l.name..l.nameEnd] == p.name by { NameText(s, o, p); }
    assert NextParam(s, l.name, e) == (next, Some(f)) by { NameNotEmpty(p); }
    forall acc ensures Scan(s, o, e, acc) == Scan(s, l.end, e, Record(s, f, acc)) {
      ScanTurn(s, o, e, acc);
      BlanksSkipped(s, next, l.end, e, Record(s, f, acc));
    }
  }

  lemma NameText(s: string, o: nat, p: Param)
    requires Laid(s, o, p)
    ensures var l := LayoutOf(p, o); l.nameEnd <= |s| && s[l.name..l.nameEnd] == p.name
  {
  }

  lemma NameNotEmpty(p: Param)
    requires ParamOk(p)
    ensures p.name != ""
  {
  }

  lemma ScanTurn(s: string, p: nat, e: nat, acc: Params)
    requires p <= e <= |s| && SkipSeparators(s, p, e) < e
    ensures var (next, found) := NextParam(s, SkipSeparators(s, p, e), e);
            Scan(s, p, e, acc) == Scan(s, next, e, if found.Some? then Record(s, found.value, acc) else acc)
  {
    hide NextParam, Record, SkipSeparators;
  }

  lemma BlanksSkipped(s: string, p: nat, q: nat, e: nat, acc: Params)
    requires p <= q <= e <= |s| && forall j :: p <= j < q ==> IsSpace(s[j])
    ensures Scan(s, p, e, acc) == Scan(s, q, e, acc)
  {
    hide NextParam, Record;
    SkipMore(s, p, q, e);
  }

  lemma {:induction false} SkipMore(s: string, p: nat, q: nat, e: nat)
    requires p <= q <= e <= |s| && forall j :: p <= j < q ==> Separator(s[j])
    ensures SkipSeparators(s, p, e) == SkipSeparators(s, q, e)
    decreases q - p
  {
    if p < q {
      SkipMore(s, p + 1, q, e);
    }
  }

  lemma RecordIs(s: string, f: Found, acc: Params, p: Param)
    requires f.name.start <= f.name.end <= |s| && s[f.name.start..f.name.end] == p.name
    requires f.value.start <= f.value.end <= |s| && s[f.value.start..f.value.end] == p.value
    ensures var r := Record(s, f, acc);
            && TextOf(s, r.charset) == (if Lower(p.name) == "charset" then Some(p.value) else TextOf(s, acc.charset))
            && TextOf(s, r.boundary) == (if Lower(p.name) == "boundary" then Some(p.value) else TextOf(s, acc.boundary))
  {
    hide Lower;
  }

  function Or(a: Option<string>, b: Option<string>): Option<string> {
    if a.Some? then a else b
  }

  /** Text that is no parameter is passed over. */
  lemma NoValueSkipped(s: string, o: nat, sep: string, text: string, e: nat, acc: Params)
    requires PartOk(NoValue(sep, text)) && Holds(s, o, sep + text) && Stops(s, o + |sep + text|, e)
    ensures Scan(s, o, e, acc) == Scan(s, o + |sep + text|, e, acc)
  {
    hide Holds, Scan, NextParam, Separator, SkipSeparators;
    var t := o + |sep|;
    var q := o + |sep + text|;
    HoldsParts(s, o, sep, text);
    HoldsAt(s, o, sep);
    HoldsAt(s, t, text);
    assert s[t] == text[0];
    assert SkipSeparators(s, o, e) == t by { SkippedTo(s, o, t, e); }
    ScanTurn(s, o, e, acc);
    NoValueThere(s, t, q, e);
  }

  lemma SkippedTo(s: string, o: nat, t: nat, e: nat)
    requires o <= t < e <= |s| && !Separator(s[t]) && forall j :: o <= j < t ==> Separator(s[j])
    ensures SkipSeparators(s, o, e) == t
  {
    hide Separator, SkipSeparators;
    if SkipSeparators(s, o, e) != t {
      assert false;
    }
  }

  lemma NoValueThere(s: string, t: nat, q: nat, e: nat)
    requires t < q && Stops(s, q, e) && !Separator(s[t])
    requires forall j :: t <= j < q ==> s[j] != ';'
    requires s[t] == '=' || forall j :: t <= j < q ==> s[j] != '='
    ensures NextParam(s, t, e) == (q, None)
  {
    hide CutBlanks, ValueAt, SkipBlanks, Upto, Separator;
    var eq := Upto(s, t, e, '=', ';');
    if s[t] == '=' {
      assert eq == t;
      NothingToCut(s, t);
      assert Upto(s, t, e, ';', ';') == q;
    } else {
      assert eq == q;
      assert Upto(s, q, e, ';', ';') == q;
    }
  }

  lemma NothingToCut(s: string, t: nat)
    requires t <= |s|
    ensures CutBlanks(s, t, t) == t
  {
  }

  lemma PartsTail(ps: seq<Part>)
    requires ps != [] && PartsOk(ps)
    ensures PartOk(ps[0]) && PartsOk(ps[1..]) && (|ps| > 1 && ps[0].Given? ==> !Open(ps[0].p))
  {
    hide PartOk, Open;
    forall i | 0 <= i < |ps[1..]| - 1 && ps[1..][i].Given? ensures !Open(ps[1..][i].p) {
      assert ps[1..][i] == ps[i + 1];
    }
  }

  lemma {:induction false} ScanPrinted(s: string, o: nat, ps: seq<Part>, acc: Params)
    requires Holds(s, o, PrintAll(ps)) && PartsOk(ps)
    ensures var r := Scan(s, o, o + |PrintAll(ps)|, acc);
            && TextOf(s, r.charset) == Or(LastValue(ps, "charset"), TextOf(s, acc.charset))
            && TextOf(s, r.boundary) == Or(LastValue(ps, "boundary"), TextOf(s, acc.boundary))
    decreases |ps|
  {
    hide Holds, PrintPart, TextOf, Scan, LastValue, PartsOk, PartOk, Open, ValueOf, Stops;
    HoldsFits(s, o, PrintAll(ps));
    LastValueStep(ps, "charset");
    LastValueStep(ps, "boundary");
    if ps == [] {
      ScanNothing(s, o, acc);
    } else {
      var e := o + |PrintAll(ps)|;
      var q := o + |PrintPart(ps[0])|;
      HoldsParts(s, o, PrintPart(ps[0]), PrintAll(ps[1..]));
      PartsTail(ps);
      StopsThere(s, q, ps[1..]);
      assert |ps| == 1 ==> ps[1..] == [];
      var next := PartRead(s, o, ps[0], e, acc);
      ScanPrinted(s, q, ps[1..], next);
    }
  }

  /** One turn of the loop on a printed part. */
  lemma PartRead(s: string, o: nat, x: Part, e: nat, acc: Params) returns (next: Params)
    requires PartOk(x) && Holds(s, o, PrintPart(x)) && Stops(s, o + |PrintPart(x)|, e)
    requires x.Given? && Open(x.p) ==> o + |PrintPart(x)| == e
    ensures Scan(s, o, e, acc) == Scan(s, o + |PrintPart(x)|, e, next)
    ensures TextOf(s, next.charset) == Or(ValueOf(x, "charset"), TextOf(s, acc.charset))
    ensures TextOf(s, next.boundary) == Or(ValueOf(x, "boundary"), TextOf(s, acc.boundary))
  {
    hide ParamOk, Holds, Print, Record, TextOf, Lower, Scan, Open, Stops, Free, SepOk;
    match x
    case Given(p) =>
      var f := ParamFound(s, o, p, e);
      RecordIs(s, f, acc, p);
      next := Record(s, f, acc);
    case NoValue(sep, text) =>
      NoValueSkipped(s, o, sep, text, e, acc);
      next := acc;
  }

  lemma LastValueStep(ps: seq<Part>, name: string)
    ensures LastValue(ps, name) == if ps == [] then None else Or(LastValue(ps[1..], name), ValueOf(ps[0], name))
  {
    hide Lower;
  }

  lemma ScanNothing(s: string, o: nat, acc: Params)
    requires o <= |s|
    ensures Scan(s, o, o, acc) == acc
  {
  }

  lemma StopsThere(s: string, q: nat, ps: seq<Part>)
    requires Holds(s, q, PrintAll(ps)) && PartsOk(ps)
    ensures Stops(s, q, q + |PrintAll(ps)|)
  {
    hide Holds;
    HoldsFits(s, q, PrintAll(ps));
    if ps != [] {
      HoldsAt(s, q, PrintAll(ps));
      PartBegins(ps[0]);
      assert PrintAll(ps)[0] == PrintPart(ps[0])[0];
    }
  }

  lemma PartBegins(x: Part)
    requires PartOk(x)
    ensures PrintPart(x) != "" && PrintPart(x)[0] == ';'
  {
  }

  /**
   * A printed list of parameters is read back: the scanner returns the value of the last
   * charset and of the last boundary, without quotes and surrounding blanks, wherever in the
   * header the list is and whatever else is in it; a missing closing quote at the end does
   * not matter.
   */
  lemma ScanUndoesPrint(s: string, o: nat, ps: seq<Part>)
    requires Holds(s, o, PrintAll(ps)) && PartsOk(ps)
    ensures var r := Scan(s, o, o + |PrintAll(ps)|, Params(None, None));
            TextOf(s, r.charset) == LastValue(ps, "charset") && TextOf(s, r.boundary) == LastValue(ps, "boundary")
  {
    hide PartsOk, PrintAll, Scan;
    ScanPrinted(s, o, ps, Params(None, None));
  }
}
