/** A printer of ADP pages: texts, inline code, server-side scripts and registered tags. */
module AdpPrint {
  import opened Prelude
  import opened Chars
  import opened AdpText
  import opened AdpAttrs
  import opened AdpCode
  import opened AdpScan
  import opened AdpTags

  /** A block as it is written in a page. */
  function Print(b: Block): string {
    match b.kind
    case Text => b.body
    case Script => "<%" + b.body + "%>"
    case Value => "<%=" + b.body + "%>"
  }

  /** Openings and closings match up, and no prefix has too many closings. */
  predicate Balanced(b: string) {
    && Opens(b, 0, |b|) == Closes(b, 0, |b|)
    && forall j :: 0 <= j <= |b| ==> Closes(b, 0, j) <= Opens(b, 0, j)
  }

  /** What a block needs in order to be read back, on its own. */
  predicate Writable(b: Block) {
    && b.body != ""
    && match b.kind
       case Text => forall i :: 0 <= i < |b.body| && OpenAt(b.body, i) ==> At(b.body, i + 2, '>')
       case Script => Balanced(b.body) && b.body[0] != '>' && b.body[0] != '=' && b.body[|b.body| - 1] != '<'
       case Value => Balanced(b.body) && b.body[|b.body| - 1] != '<'
  }

  // ----- tags

  /** A start tag without its ">". */
  function Start(name: string, atts: string): string {
    "<" + name + " " + atts
  }

  predicate NameLetter(c: char) {
    !IsSpace(c) && c != '<' && c != '>'
  }

  /**
   * What a start tag needs in order to be read back: a name, in any mix of cases, and
   * attributes that hold no ">" and leave no quote open, or that are written one by one, with
   * any ">" in quotes.
   */
  ghost predicate StartReads(name: string, atts: string) {
    && name != "" && FirstChar(name[0]) && (forall i :: 0 <= i < |name| ==> NameLetter(name[i]))
    && (atts != "" ==> !IsSpace(atts[0])) && (Unquoted(name, atts) || WellFormed(name, atts))
  }

  predicate NoTagIn(s: string) {
    forall i :: 0 <= i < |s| ==> s[i] != '<'
  }

  /** The scanner goes on behind the name, so the attributes must hold no further tag. */
  ghost predicate StartOk(name: string, atts: string) {
    StartReads(name, atts) && NoTagIn(atts)
  }

  predicate Unquoted(name: string, atts: string) {
    (forall i :: 0 <= i < |atts| ==> atts[i] != '>') && !Quoted(Start(name, atts), 0, |Start(name, atts)|)
  }

  ghost predicate WellFormed(name: string, atts: string) {
    Word(name) && exists ats, flag :: AttrsOk(ats, flag) && PrintAttrs(ats, flag) == " " + atts
  }

  function EndTag(close: string): string {
    "<" + close + ">"
  }

  /** The end tag behind the body is the one at which opening and closing tags balance. */
  predicate BodyOk(body: string, end: string, skip: Option<string>, open: string, close: string) {
    var t := body + EndTag(end);
    Lower(end) == close && Closing(Tags(t, 0, skip), 1, open, close) == Some(Seen(|body|, |t| - 1, close))
  }

  /** A part of a page; the names of tags are written as they are spelled. */
  datatype Item =
    | Piece(b: Block)
    | Server(spelled: string, atts: string, body: string, end: string)
    /** A registered tag without an end tag. */
    | Lone(tag: Tag, spelled: string, atts: string)
    /** A registered tag and its end tag. */
    | Pair(tag: Tag, spelled: string, atts: string, body: string, end: string)

  predicate IsText(it: Item) {
    it.Piece? && it.b.kind == Text
  }

  function PrintItem(it: Item): string {
    match it
    case Piece(b) => Print(b)
    case Server(spelled, atts, body, end) => Start(spelled, atts) + ">" + (body + EndTag(end))
    case Lone(_, spelled, atts) => Start(spelled, atts) + ">"
    case Pair(_, spelled, atts, body, end) => Start(spelled, atts) + ">" + (body + EndTag(end))
  }

  function PrintItems(doc: seq<Item>): string {
    if doc == [] then "" else PrintItem(doc[0]) + PrintItems(doc[1..])
  }

  /** The name stands for the tag: in the tag set itself, or else in the one it falls back on. */
  predicate Named(c: Config, name: string, tag: Tag) {
    (name in c.tags && c.tags[name] == tag) || (name !in c.tags && name in c.fallback && c.fallback[name] == tag)
  }

  lemma NamedIsLookup(c: Config, name: string)
    ensures forall tag :: Named(c, name, tag) <==> Lookup(c, name) == Some(tag)
    ensures Lookup(c, name).None? <==> name !in c.tags && name !in c.fallback
  {
  }

  /** The tag is registered, and is not taken for a server-side script. */
  predicate Registered(c: Config, tag: Tag, spelled: string, atts: string) {
    && Lower(spelled) == tag.name && Named(c, tag.name, tag)
    && !(tag.name == "script" && atts != "" && c.runsOnServer(atts))
  }

  ghost predicate ItemOk(c: Config, it: Item) {
    match it
    case Piece(b) => Writable(b)
    case Server(spelled, atts, body, end) =>
      && StartOk(spelled, atts) && Lower(spelled) == "script" && atts != "" && c.runsOnServer(atts)
      && body != "" && BodyOk(body, end, None, "script", "/script")
    case Lone(tag, spelled, atts) => StartOk(spelled, atts) && Registered(c, tag, spelled, atts) && tag.endtag.None?
    case Pair(tag, spelled, atts, body, end) =>
      && StartOk(spelled, atts) && Registered(c, tag, spelled, atts) && tag.endtag.Some?
      && BodyOk(body, end, Skip(tag.name, tag.endtag.value), tag.name, tag.endtag.value)
  }

  /** Whether streaming has been switched on after the item. */
  function Streaming(c: Config, it: Item, done: bool): bool {
    done || (it.Server? && c.streams(it.atts) && !c.safe)
  }

  /** The blocks an item stands for; in safe mode code of the page itself stands for none. */
  function BlocksOf(c: Config, it: Item, done: bool): seq<Block> {
    match it
    case Piece(b) => if c.safe && b.kind != Text then [] else [b]
    case Server(_, atts, body, _) =>
      if c.safe then []
      else (if c.streams(atts) && !done then [Block(Script, STREAM)] else []) + [Block(Script, body)]
    case Lone(tag, _, atts) => [Block(Script, TagCall(c, tag, atts, None))]
    case Pair(tag, _, atts, body, _) => [Block(Script, TagCall(c, tag, atts, Some(body)))]
  }

  function Expected(c: Config, doc: seq<Item>, done: bool): seq<Block>
    decreases |doc|
  {
    if doc == [] then []
    else BlocksOf(c, doc[0], done) + Expected(c, doc[1..], Streaming(c, doc[0], done))
  }

  // ----- counting inside a page

  lemma {:induction false} CountInside(p: string, start: nat, off: nat, b: string, n: nat)
    requires start <= off && Holds(p, off, b) && n <= |b|
    requires n == |b| && b != "" ==> b[|b| - 1] != '<' && !CloseAt(p, off + |b| - 1)
    ensures Opens(p, start, off + n) == Opens(p, start, off) + Opens(b, 0, n)
    ensures Closes(p, start, off + n) == Closes(p, start, off) + Closes(b, 0, n)
    decreases n
  {
    if n > 0 {
      CountInside(p, start, off, b, n - 1);
      assert b[n - 1] == p[off + n - 1];
      if n < |b| {
        assert b[n] == p[off + n];
      }
    }
  }

  /** The counter closes a printed block where the printer put its end. */
  lemma CloseOfPrinted(p: string, off: nat, b: string)
    requires b != "" && Holds(p, off, "<%" + b + "%>")
    requires Balanced(b) && b[0] != '>' && b[|b| - 1] != '<'
    ensures Begins(p, off) && Close(p, off, 0) == off + 2 + |b|
  {
    hide Close, Balanced, Opens, Closes;
    var w := "<%" + b + "%>";
    var e := off + 2 + |b|;
    WrittenAt(p, off, b);
    CountHead(p, off);
    forall j | off <= j < e ensures !Balances(p, off, j) {
      if j >= off + 2 && CloseAt(p, j) {
        CountInside(p, off, off + 2, b, j + 1 - (off + 2));
        BalancedAt(b, j + 1 - (off + 2));
      }
    }
    CountInside(p, off, off + 2, b, |b|);
    BalancedAt(b, |b|);
    CountTail(p, off, e);
    assert Balances(p, off, e);
    CloseIsFirst(p, off, off);
    NothingYet(p, off);
  }

  /** What the printed block looks like in the page. */
  lemma WrittenAt(p: string, off: nat, b: string)
    requires b != "" && Holds(p, off, "<%" + b + "%>")
    ensures OpenAt(p, off) && Holds(p, off + 2, b) && CloseAt(p, off + 2 + |b|) && p[off + 2] == b[0]
    ensures p[off + 1 + |b|] == b[|b| - 1]
  {
    hide Holds;
    HoldsParts(p, off, "<%" + b, "%>");
    HoldsParts(p, off, "<%", b);
    HoldsAt(p, off, "<%");
    HoldsAt(p, off + 2, b);
    HoldsAt(p, off + 2 + |b|, "%>");
    HoldsFits(p, off + 2 + |b|, "%>");
  }

  lemma CountHead(p: string, off: nat)
    requires OpenAt(p, off) && !CloseAt(p, off + 1)
    ensures Opens(p, off, off + 2) == 1 && Closes(p, off, off + 2) == 0
  {
    NothingYet(p, off);
    assert Opens(p, off, off + 1) == 1 && Closes(p, off, off + 1) == 0;
  }

  lemma CountTail(p: string, off: nat, e: nat)
    requires off <= e && CloseAt(p, e)
    ensures Opens(p, off, e + 1) == Opens(p, off, e) && Closes(p, off, e + 1) == Closes(p, off, e) + 1
  {
  }

  lemma BalancedAt(b: string, n: nat)
    requires Balanced(b) && n <= |b|
    ensures Closes(b, 0, n) <= Opens(b, 0, n) && (n == |b| ==> Closes(b, 0, n) == Opens(b, 0, n))
  {
  }

  /** A leading "=" does not change the balance. */
  lemma BalancedValue(t: string)
    requires Balanced(t) && t != "" && t[|t| - 1] != '<'
    ensures Balanced("=" + t)
  {
    var b := "=" + t;
    assert b[1..1 + |t|] == t;
    NothingYet(b, 0);
    assert Opens(b, 0, 1) == 0 && Closes(b, 0, 1) == 0;
    forall n | 0 <= n <= |t|
      ensures Opens(b, 0, 1 + n) == Opens(t, 0, n) && Closes(b, 0, 1 + n) == Closes(t, 0, n)
    {
      CountInside(b, 0, 1, t, n);
    }
    forall j | 0 <= j <= |b| ensures Closes(b, 0, j) <= Opens(b, 0, j) {
      if j > 0 {
        assert Closes(b, 0, 1 + (j - 1)) == Closes(t, 0, j - 1);
      }
    }
  }

  /** Where a printed script ends, and what the parser cuts out of it. */
  lemma CodeAt(p: string, off: nat, b: Block)
    requires Writable(b) && b.kind != Text && Holds(p, off, Print(b))
    ensures Begins(p, off) && Find2(p, off, '%', '>') < |p|
    ensures var e := Close(p, off, 0);
            && e + 2 == off + |Print(b)| <= |p| && e < |p|
            && if b.kind == Script then !At(p, off + 2, '=') && Slice(p, off + 2, e) == b.body
               else At(p, off + 2, '=') && Slice(p, off + 3, e) == b.body
  {
    hide Balanced, Close, Find2, Holds, Begins, Slice, Print;
    ValuePrints(b);
    if b.kind == Script {
      InlineAt(p, off, b.body);
    } else {
      BalancedValue(b.body);
      InlineAt(p, off, "=" + b.body);
    }
  }

  /** Inline code, whatever its kind. */
  lemma InlineAt(p: string, off: nat, body: string)
    requires body != "" && Holds(p, off, "<%" + body + "%>")
    requires Balanced(body) && body[0] != '>' && body[|body| - 1] != '<'
    ensures Begins(p, off) && Find2(p, off, '%', '>') < |p|
    ensures var e := Close(p, off, 0);
            && e == off + 2 + |body| && e + 2 <= |p| && At(p, off + 2, body[0])
            && Slice(p, off + 2, e) == body && Slice(p, off + 3, e) == body[1..]
  {
    hide Balanced, Close, Find2, Holds, Slice;
    CloseOfPrinted(p, off, body);
    WrittenAt(p, off, body);
    CodeText(p, off + 2, body);
    assert CloseAt(p, off + 2 + |body|);
  }

  lemma CodeText(p: string, o: nat, body: string)
    requires body != "" && Holds(p, o, body)
    ensures o + |body| <= |p| && p[o] == body[0]
    ensures Slice(p, o, o + |body|) == body && Slice(p, o + 1, o + |body|) == body[1..]
  {
    SlicesAgree(p, o, body, 0, |body|);
    SlicesAgree(p, o, body, 1, |body|);
    HoldsAt(p, o, body);
  }

  lemma ValuePrints(b: Block)
    requires b.kind != Text
    ensures Print(b) == "<%" + (if b.kind == Script then b.body else "=" + b.body) + "%>"
    ensures |Print(b)| == |b.body| + if b.kind == Script then 4 else 5
    ensures b.kind == Value ==> ("=" + b.body)[1..] == b.body
  {
    if b.kind == Value {
      assert "<%=" + b.body == "<%" + ("=" + b.body);
    }
  }

  // ----- a printed start tag

  lemma {:induction false} ReadLocal(p: string, off: nat, t: string, n: nat)
    requires Holds(p, off, t) && n <= |t|
    ensures Read(p, off, off + n) == Read(t, 0, n)
  {
    if n > 0 {
      ReadLocal(p, off, t, n - 1);
      HoldsAt(p, off, t);
      assert p[off + n - 1] == t[n - 1];
    }
  }

  /** The characters of a start tag. */
  lemma StartChars(p: string, q: nat, name: string, atts: string)
    requires Holds(p, q, Start(name, atts) + ">")
    ensures var b := q + 1 + |name|; var e := b + 1 + |atts|;
            && e < |p| && p[q] == '<' && p[b] == ' ' && p[e] == '>'
            && Holds(p, q + 1, name) && Holds(p, b + 1, atts) && Holds(p, q, Start(name, atts))
  {
    hide Holds;
    var t := Start(name, atts);
    HoldsParts(p, q, t, ">");
    HoldsParts(p, q, "<" + name + " ", atts);
    HoldsParts(p, q, "<" + name, " ");
    HoldsParts(p, q, "<", name);
    HoldsAt(p, q, "<");
    HoldsAt(p, q + 1 + |name|, " ");
    HoldsAt(p, q + |t|, ">");
    HoldsFits(p, q + |t|, ">");
  }

  /** The end of a printed start tag, and what is read from it. */
  lemma StartFound(p: string, q: nat, name: string, atts: string)
    requires Holds(p, q, Start(name, atts) + ">") && StartOk(name, atts)
    ensures var e := q + |Start(name, atts)|;
            && q + 1 < e < |p| && At(p, q, '<') && FirstChar(p[q + 1]) && !Begins(p, q) && TagEnd(p, q) == e
            && GetTag(p, q, e) == TagText(Lower(name), e - |atts|) && p[e - |atts|..e] == atts
            && forall j :: q < j <= e ==> p[j] != '<'
  {
    hide Holds, TagEnd, StartReads, GetTag, Lower;
    StartFoundAny(p, q, name, atts);
    StartChars(p, q, name, atts);
    StartNames(name, atts);
    HoldsAt(p, q + 1, name);
    HoldsAt(p, q + 2 + |name|, atts);
  }

  lemma StartNames(name: string, atts: string)
    requires StartReads(name, atts)
    ensures forall i :: 0 <= i < |name| ==> name[i] != '<'
  {
    hide Unquoted, WellFormed;
  }

  /** The same with further tags in the attributes. */
  lemma StartFoundAny(p: string, q: nat, name: string, atts: string)
    requires Holds(p, q, Start(name, atts) + ">") && StartReads(name, atts)
    ensures var e := q + |Start(name, atts)|;
            && q + 1 < e < |p| && At(p, q, '<') && FirstChar(p[q + 1]) && !Begins(p, q) && TagEnd(p, q) == e
            && GetTag(p, q, e) == TagText(Lower(name), e - |atts|) && p[e - |atts|..e] == atts
  {
    hide Holds, TagEnd, Quoted, StartReads, GetTag, Lower;
    var e := q + 2 + |name| + |atts|;
    StartChars(p, q, name, atts);
    StartPlain(p, q, name, atts, e);
    StartEnds(p, q, name, atts, e);
    StartNamed(p, q, name, atts, e);
  }

  lemma StartPlain(p: string, q: nat, name: string, atts: string, e: nat)
    requires StartReads(name, atts) && e == q + 2 + |name| + |atts| < |p| && p[q + 1 + |name|] == ' ' && p[e] == '>'
    requires Holds(p, q + 1, name) && Holds(p, q + 2 + |name|, atts)
    ensures q + 1 < e && FirstChar(p[q + 1]) && p[q + 1] != '%'
    ensures Unquoted(name, atts) ==> forall j :: q < j < e ==> p[j] != '>'
  {
    hide Holds, Quoted, WellFormed;
    HoldsAt(p, q + 1, name);
    HoldsAt(p, q + 2 + |name|, atts);
    assert p[q + 1] == name[0];
  }

  lemma StartEnds(p: string, q: nat, name: string, atts: string, e: nat)
    requires Holds(p, q, Start(name, atts) + ">") && StartReads(name, atts) && e == q + |Start(name, atts)| < |p|
    requires p[q] == '<' && p[e] == '>' && (Unquoted(name, atts) ==> forall j :: q < j < e ==> p[j] != '>')
    ensures TagEnd(p, q) == e
  {
    hide TagEnd, Holds;
    if Unquoted(name, atts) {
      HoldsParts(p, q, Start(name, atts), ">");
      UnquotedEnds(p, q, name, atts, e);
    } else {
      var ats, flag :| AttrsOk(ats, flag) && PrintAttrs(ats, flag) == " " + atts;
      assert "<" + name + PrintAttrs(ats, flag) + ">" == Start(name, atts) + ">";
      TagEndOfPrinted(p, q, name, ats, flag);
    }
  }

  lemma UnquotedEnds(p: string, q: nat, name: string, atts: string, e: nat)
    requires Holds(p, q, Start(name, atts)) && Unquoted(name, atts) && e == q + |Start(name, atts)| < |p|
    requires p[q] == '<' && p[e] == '>' && forall j :: q < j < e ==> p[j] != '>'
    ensures TagEnd(p, q) == e
  {
    hide TagEnd, Read;
    TagEndSkipsQuotedOnly(p, q);
    ReadLocal(p, q, Start(name, atts), |Start(name, atts)|);
    assert !Quoted(p, q, e);
  }

  lemma StartNamed(p: string, q: nat, name: string, atts: string, e: nat)
    requires StartReads(name, atts) && e == q + 2 + |name| + |atts| < |p| && p[q + 1 + |name|] == ' '
    requires Holds(p, q + 1, name) && Holds(p, q + 2 + |name|, atts)
    ensures GetTag(p, q, e) == TagText(Lower(name), e - |atts|) && p[e - |atts|..e] == atts
  {
    hide Quoted, Holds, Lower, SkipSpaceTo, NameEnd, Unquoted, WellFormed;
    var b := q + 1 + |name|;
    HoldsAt(p, q + 1, name);
    HoldsAt(p, b + 1, atts);
    assert p[q + 1] == name[0] && (atts != "" ==> p[b + 1] == atts[0]);
    SkipNone(p, q + 1, e);
    NameEndIs(p, q + 1, b, e);
    SkipOne(p, b, e);
    HoldsText(p, q + 1, name);
    HoldsText(p, b + 1, atts);
  }

  lemma SkipNone(p: string, i: nat, e: nat)
    requires i <= e <= |p| && (i < e ==> !IsSpace(p[i]))
    ensures SkipSpaceTo(p, i, e) == i
  {
  }

  lemma SkipOne(p: string, b: nat, e: nat)
    requires b < e <= |p| && IsSpace(p[b]) && (b + 1 < e ==> !IsSpace(p[b + 1]))
    ensures SkipSpaceTo(p, b, e) == b + 1
  {
    SkipNone(p, b + 1, e);
  }

  lemma HoldsText(p: string, o: nat, t: string)
    requires Holds(p, o, t)
    ensures o + |t| <= |p| && p[o..o + |t|] == t
  {
  }

  lemma {:induction false} NameEndIs(p: string, i: nat, b: nat, e: nat)
    requires i <= b < e <= |p| && IsSpace(p[b]) && forall j :: i <= j < b ==> NameLetter(p[j])
    ensures NameEnd(p, i, e) == b
    decreases b - i
  {
    if i < b {
      NameEndIs(p, i + 1, b, e);
    }
  }

  // ----- a printed body

  lemma {:induction false} SkipLocal(p: string, off: nat, t: string, i: nat, e: nat)
    requires Holds(p, off, t) && i <= e <= |t|
    ensures off + e <= |p| && SkipSpaceTo(p, off + i, off + e) == off + SkipSpaceTo(t, i, e)
    decreases e - i
  {
    HoldsAt(p, off, t);
    if i < e {
      assert p[off + i] == t[i];
      SkipLocal(p, off, t, i + 1, e);
    }
  }

  lemma {:induction false} NameEndLocal(p: string, off: nat, t: string, i: nat, e: nat)
    requires Holds(p, off, t) && i <= e <= |t|
    ensures off + e <= |p| && NameEnd(p, off + i, off + e) == off + NameEnd(t, i, e)
    decreases e - i
  {
    HoldsAt(p, off, t);
    if i < e {
      assert p[off + i] == t[i];
      NameEndLocal(p, off, t, i + 1, e);
    }
  }

  lemma GetTagLocal(p: string, off: nat, t: string, s: nat, e: nat)
    requires Holds(p, off, t) && s < e <= |t|
    ensures off + e <= |p| && GetTag(p, off + s, off + e).name == GetTag(t, s, e).name
  {
    hide SkipSpaceTo, NameEnd, Holds;
    HoldsFits(p, off, t);
    SkipLocal(p, off, t, s + 1, e);
    var a := SkipSpaceTo(t, s + 1, e);
    NameEndLocal(p, off, t, a, e);
    var b := NameEnd(t, a, e);
    SlicesAgree(p, off, t, a, b);
  }

  lemma SlicesAgree(p: string, off: nat, b: string, from: nat, to: nat)
    requires Holds(p, off, b) && from <= to <= |b|
    ensures off + to <= |p| && p[off + from..off + to] == b[from..to]
  {
    HoldsAt(p, off, b);
  }

  lemma FindLocal(p: string, off: nat, t: string, i: nat, c: char)
    requires Holds(p, off, t) && i <= |t| && Find(t, i, c) < |t|
    ensures off + |t| <= |p| && Find(p, off + i, c) == off + Find(t, i, c)
  {
    hide Find, Holds;
    HoldsFits(p, off, t);
    HoldsAt(p, off, t);
    var r := Find(t, i, c);
    assert p[off + r] == c;
    assert forall j :: off + i <= j < off + r ==> p[j] == t[j - off] != c;
  }

  /** A closing tag that is found in a part of the page that ends in ">" is found in the page. */
  lemma {:induction false} ClosingLocal(
    p: string, off: nat, t: string, i: nat, skip: Option<string>, level: int, open: string, close: string)
    requires Holds(p, off, t) && i <= |t| && t != "" && t[|t| - 1] == '>'
    ensures off + |t| <= |p|
    ensures match Closing(Tags(t, i, skip), level, open, close)
            case Some(x) =>
              Closing(Tags(p, off + i, skip), level, open, close) == Some(Seen(off + x.at, off + x.end, x.name))
            case None => true
    decreases |t| - i
  {
    hide Find, GetTag, Tags, Change, Holds;
    HoldsFits(p, off, t);
    TagsHead(t, i, skip);
    TagsHead(p, off + i, skip);
    var s := Find(t, i, '<');
    if s < |t| && Find(t, s, '>') < |t| {
      var e := Find(t, s, '>');
      FindLocal(p, off, t, i, '<');
      FindLocal(p, off, t, s, '>');
      GetTagLocal(p, off, t, s, e);
      var name := GetTag(t, s, e).name;
      var next := if Some(name) == skip then s + |name| + 2 else s + 1;
      var here, there := Seen(s, e, name), Seen(off + s, off + e, name);
      assert Tags(t, i, skip) == [here] + Tags(t, next, skip);
      assert Tags(p, off + i, skip) == [there] + Tags(p, off + next, skip);
      SameChange(here, there, open, close);
      ClosingCons(here, Tags(t, next, skip), level, open, close);
      ClosingCons(there, Tags(p, off + next, skip), level, open, close);
      ClosingLocal(p, off, t, next, skip, level + Change(here, open, close), open, close);
    }
  }

  lemma SameChange(a: Seen, b: Seen, open: string, close: string)
    requires a.name == b.name
    ensures Change(a, open, close) == Change(b, open, close)
  {
  }

  lemma ClosingCons(t: Seen, ts: seq<Seen>, level: int, open: string, close: string)
    ensures var level' := level + Change(t, open, close);
            Closing([t] + ts, level, open, close) == if level' == 0 then Some(t) else Closing(ts, level', open, close)
  {
    hide Change;
    assert ([t] + ts)[0] == t && ([t] + ts)[1..] == ts;
  }

  /** The end of a printed body. */
  lemma BodyEnds(p: string, off: nat, body: string, end: string, skip: Option<string>, open: string, close: string)
    requires Holds(p, off, body + EndTag(end)) && BodyOk(body, end, skip, open, close)
    ensures var e := off + |body| + |close| + 1;
            && e < |p| && Closing(Tags(p, off, skip), 1, open, close) == Some(Seen(off + |body|, e, close))
            && Slice(p, off, off + |body|) == body
  {
    hide Tags, Closing, Holds;
    var t := body + EndTag(end);
    assert t[|t| - 1] == '>';
    ClosingLocal(p, off, t, 0, skip, 1, open, close);
    HoldsParts(p, off, body, EndTag(end));
    HoldsText(p, off, body);
    HoldsFits(p, off, t);
  }
}
