/** The ADP parser undoes the printer of `AdpPrint`. */
module AdpRoundTrip {
  import opened Prelude
  import opened Chars
  import opened AdpText
  import opened AdpCode
  import opened AdpScan
  import opened AdpTags
  import opened AdpPrint

  /** All items can be written, and no two texts are next to each other. */
  ghost predicate ItemsOk(c: Config, doc: seq<Item>)
    decreases |doc|
  {
    doc == [] ||
    (&& ItemOk(c, doc[0])
     && (|doc| > 1 && IsText(doc[0]) ==> !IsText(doc[1]))
     && ItemsOk(c, doc[1..]))
  }

  /** The "<" at `i` begins neither a server-side script nor a registered tag. */
  predicate Quiet(c: Config, p: string, i: nat)
    requires At(p, i, '<')
  {
    i + 1 == |p| || !FirstChar(p[i + 1]) || TagEnd(p, i) == |p| ||
    var t := GetTag(p, i, TagEnd(p, i));
    !IsServerScript(c, p, t, TagEnd(p, i)) && Lookup(c, t.name).None?
  }

  /** Every "<" in the texts of `doc`, printed from position `off` of the page on, is quiet. */
  predicate QuietTexts(c: Config, p: string, off: nat, doc: seq<Item>)
    decreases |doc|
  {
    doc == [] ||
    (&& (IsText(doc[0]) ==>
           forall i :: off <= i < off + |doc[0].b.body| && At(p, i, '<') ==> Quiet(c, p, i))
     && QuietTexts(c, p, off + |PrintItem(doc[0])|, doc[1..]))
  }

  // ----- scanning a text

  /** The name of the tag at `s` ends before the next "<". */
  lemma NameStops(p: string, s: nat, e: nat, q: nat)
    requires s + 1 < e <= |p| && FirstChar(p[s + 1]) && s < q <= |p| && (q < |p| ==> p[q] == '<')
    ensures s + 1 + |GetTag(p, s, e).name| <= q
  {
  }

  /** Between `a` and `q` there is only text without tags the parser cares about. */
  ghost predicate QuietText(c: Config, p: string, a: nat, q: nat) {
    && a <= q <= |p|
    && (forall i :: a <= i < q && At(p, i, '<') ==> !Begins(p, i) && Quiet(c, p, i))
    && (q < |p| ==> p[q] == '<' && exists e :: q <= e < |p| && p[e] == '>')
  }

  /** A "<" inside a text only moves the search position, or ends the loop on the last text. */
  lemma TextStep(c: Config, p: string, st: State, q: nat) returns (next: Option<nat>)
    requires Fits(p, st) && st.mode.Next? && QuietText(c, p, st.adp, q) && Find(p, st.adp, '<') < q
    ensures next.Some? ==> st.adp < next.value <= q && Step(c, p, st) == Some(st.(adp := next.value))
    ensures next.None? ==> q == |p| && Step(c, p, st).None?
  {
    hide Find, TagEnd, GetTag, StepTag;
    var s := Find(p, st.adp, '<');
    assert At(p, s, '<') && Quiet(c, p, s) && !Begins(p, s);
    if s + 1 == |p| || !FirstChar(p[s + 1]) {
      next := Some(s + 1);
    } else {
      TagEndSkipsQuotedOnly(p, s);
      var e := TagEnd(p, s);
      if e < |p| {
        QuietStep(c, p, st, s, e);
        NameStops(p, s, e, q);
        next := Some(s + |GetTag(p, s, e).name| + 1);
      } else {
        next := None;
      }
    }
  }

  lemma QuietStep(c: Config, p: string, st: State, s: nat, e: nat)
    requires s < e < |p| && st.mode.Next? && s + 1 < |p| && FirstChar(p[s + 1])
    requires !IsServerScript(c, p, GetTag(p, s, e), e) && Lookup(c, GetTag(p, s, e).name).None?
    ensures StepTag(c, p, st, s, e) == st.(adp := s + |GetTag(p, s, e).name| + 1)
  {
  }

  /** No "<" is left: the loop ends. */
  lemma NoMore(c: Config, p: string, st: State)
    requires Fits(p, st) && Find(p, st.adp, '<') == |p|
    ensures Scan(c, p, st) == st
  {
  }

  /**
   * Looking for a tag in a text that ends at `q`: either the page ends there and the loop is
   * left, or the search gets to the "<" at `q`; nothing is appended.
   */
  lemma {:induction false} ScanText(c: Config, p: string, st: State, q: nat) returns (a: nat)
    requires Fits(p, st) && st.mode.Next? && QuietText(c, p, st.adp, q)
    ensures q == |p| ==> Scan(c, p, st).text == st.text && Scan(c, p, st).blocks == st.blocks
    ensures q < |p| ==> a <= q && Find(p, a, '<') == q && Scan(c, p, st) == Scan(c, p, st.(adp := a))
    decreases q - st.adp
  {
    hide Find, Step, Scan, Quiet, Begins;
    a := st.adp;
    if Find(p, st.adp, '<') < q {
      ScanTurn(c, p, st);
      var next := TextStep(c, p, st, q);
      if next.Some? {
        a := ScanText(c, p, st.(adp := next.value), q);
      }
    } else if q == |p| {
      NoMore(c, p, st);
    } else {
      assert Find(p, st.adp, '<') == q;
    }
  }

  // ----- scanning an item that is no text

  /** The scanner is at the beginning of an item at `q`: only text lies before it. */
  ghost predicate AtItem(p: string, st: State, q: nat) {
    st.mode.Next? && st.adp <= q < |p| && Find(p, st.adp, '<') == q
  }

  /** The scanner has just passed an item that ends at `off`. */
  ghost predicate Passed(p: string, st: State, off: nat) {
    st.mode.Next? && st.adp <= st.text == off <= |p| && forall j :: st.adp <= j < off ==> p[j] != '<'
  }

  lemma StepBegin(c: Config, p: string, st: State, q: nat)
    requires AtItem(p, st, q) && Begins(p, q)
    ensures Fits(p, st) && Fits(p, st.(mode := Inline)) && Step(c, p, st) == Some(st.(mode := Inline))
  {
    hide StepTag, TagEnd;
  }

  lemma StepCode(c: Config, p: string, st: State, off: nat, b: Block)
    requires Fits(p, st) && st.mode.Inline? && Find(p, st.adp, '<') == off
    requires Writable(b) && b.kind != Text && Holds(p, off, Print(b))
    ensures var end := off + |Print(b)|; var bs := AddText(p, st, off);
            Step(c, p, st) == Some(State(Next, st.level, end, end, st.streamDone,
                                         if c.safe then bs else Emit(bs, b.kind, b.body)))
  {
    hide Writable, Close, Find, Find2, Print, Emit, Slice, AddText;
    CodeAt(p, off, b);
  }

  lemma EmitWritable(b: Block)
    requires b.body != ""
    ensures forall bs :: Emit(bs, b.kind, b.body) == bs + [b]
  {
  }

  lemma WritableBody(b: Block)
    requires Writable(b)
    ensures b.body != ""
  {
  }

  lemma PassCode(c: Config, p: string, st: State, q: nat, b: Block) returns (next: State)
    requires AtItem(p, st, q) && Writable(b) && b.kind != Text && Holds(p, q, Print(b))
    ensures Passed(p, next, q + |Print(b)|) && next.streamDone == st.streamDone
    ensures next.blocks == AddText(p, st, q) + (if c.safe then [] else [b])
    ensures Fits(p, st) && Scan(c, p, st) == Scan(c, p, next)
  {
    hide Writable, Find, Print, Emit, Slice, Step, Scan, Close;
    CodeAt(p, q, b);
    StepBegin(c, p, st, q);
    ScanTurn(c, p, st);
    var st1 := st.(mode := Inline);
    StepCode(c, p, st1, q, b);
    ScanTurn(c, p, st1);
    WritableBody(b);
    EmitWritable(b);
    next := Step(c, p, st1).value;
  }

  /** A start tag is read as a start tag. */
  lemma StepStart(c: Config, p: string, st: State, q: nat, name: string, atts: string)
    requires AtItem(p, st, q) && StartOk(name, atts) && Holds(p, q, Start(name, atts) + ">")
    ensures var e := q + |Start(name, atts)|;
            e < |p| && Fits(p, st) && Step(c, p, st) == Some(StepTag(c, p, st, q, e))
  {
    hide StartReads, TagEnd, GetTag, StepTag, Find;
    StepAnyStart(c, p, st, q, name, atts);
  }

  lemma StepAnyStart(c: Config, p: string, st: State, q: nat, name: string, atts: string)
    requires AtItem(p, st, q) && StartReads(name, atts) && Holds(p, q, Start(name, atts) + ">")
    ensures var e := q + |Start(name, atts)|;
            e < |p| && Fits(p, st) && Step(c, p, st) == Some(StepTag(c, p, st, q, e))
  {
    hide StartReads, TagEnd, GetTag, StepTag, Find;
    StartFoundAny(p, q, name, atts);
  }

  /** The start tag of a server-side script. */
  lemma OpenServer(c: Config, p: string, st: State, q: nat, spelled: string, atts: string) returns (st1: State)
    requires AtItem(p, st, q) && StartOk(spelled, atts) && Lower(spelled) == "script" && atts != "" && c.runsOnServer(atts)
    requires Holds(p, q, Start(spelled, atts) + ">")
    ensures var e := q + |Start(spelled, atts)|;
            && e < |p| && st1.adp <= e + 1
            && st1 == st.(mode := InScript(e + 1, c.streams(atts)), level := 1, adp := st1.adp, blocks := AddText(p, st, q))
            && (forall j :: st1.adp <= j < e + 1 ==> p[j] != '<')
            && Fits(p, st) && Fits(p, st1) && Scan(c, p, st) == Scan(c, p, st1)
  {
    hide StartOk, Find, Step, Scan, Holds, AddText, GetTag, TagEnd, Start, Lower;
    StepStart(c, p, st, q, spelled, atts);
    StartFound(p, q, spelled, atts);
    st1 := StepTag(c, p, st, q, q + |Start(spelled, atts)|);
    ScanTurn(c, p, st);
  }

  /** What the end tag of a server-side script appends. */
  lemma CloseServer(c: Config, p: string, st: State, t: Seen, body: string)
    requires st.mode.InScript? && Slice(p, st.mode.start, t.at) == body != ""
    ensures var next := ScriptClosed(c, p, st, t);
            && next.blocks == st.blocks + ServerBlocks(c, st.mode.stream, st.streamDone, body)
            && next.streamDone == (st.streamDone || (st.mode.stream && !c.safe))
            && next.mode.Next? && next.adp == t.at + |t.name| + 1 && next.text == t.end + 1
  {
    hide Emit, Slice;
    EmitWritable(Block(Script, STREAM));
    EmitWritable(Block(Script, body));
  }

  function ServerBlocks(c: Config, stream: bool, done: bool, body: string): seq<Block> {
    if c.safe then [] else (if stream && !done then [Block(Script, STREAM)] else []) + [Block(Script, body)]
  }

  lemma PassServer(c: Config, p: string, st: State, q: nat, it: Item) returns (next: State)
    requires AtItem(p, st, q) && it.Server? && ItemOk(c, it) && Holds(p, q, PrintItem(it))
    ensures Passed(p, next, q + |PrintItem(it)|) && next.streamDone == Streaming(c, it, st.streamDone)
    ensures next.blocks == AddText(p, st, q) + BlocksOf(c, it, st.streamDone)
    ensures Fits(p, st) && Scan(c, p, st) == Scan(c, p, next)
  {
    hide StartOk, BodyOk, Find, Scan, Slice, Holds, AddText, Start, Fits, EndTag, Lower;
    HoldsParts(p, q, Start(it.spelled, it.atts) + ">", it.body + EndTag(it.end));
    var st1 := OpenServer(c, p, st, q, it.spelled, it.atts);
    next := EndServer(c, p, st1, st1.mode.start, st1.mode.stream, it.body, it.end);
    BodyEndLength(it.body, it.end, None, "script", "/script");
  }

  lemma BodyEndLength(body: string, end: string, skip: Option<string>, open: string, close: string)
    requires BodyOk(body, end, skip, open, close)
    ensures |EndTag(end)| == |close| + 2
  {
    hide Tags, Closing;
  }

  /** The end tag of a printed body, found from a position before it. */
  lemma EndFound(
    p: string, adp: nat, off: nat, body: string, end: string, skip: Option<string>, open: string, close: string)
    requires adp <= off <= |p| && Holds(p, off, body + EndTag(end)) && BodyOk(body, end, skip, open, close)
    requires forall j :: adp <= j < off ==> p[j] != '<'
    ensures var e := off + |body| + |close| + 1;
            && e < |p| && Slice(p, off, off + |body|) == body
            && Closing(Tags(p, adp, skip), 1, open, close) == Some(Seen(off + |body|, e, close))
  {
    hide BodyOk, Slice, Tags, Closing, Holds, EndTag;
    BodyEnds(p, off, body, end, skip, open, close);
    TagsSkip(p, adp, off, skip);
  }

  /** The body and the end tag of a server-side script. */
  lemma EndServer(c: Config, p: string, st: State, off: nat, stream: bool, body: string, end: string)
    returns (next: State)
    requires Fits(p, st) && st.mode == InScript(off, stream) && st.level == 1 && body != ""
    requires st.adp <= off <= |p| && Holds(p, off, body + EndTag(end)) && BodyOk(body, end, None, "script", "/script")
    requires forall j :: st.adp <= j < off ==> p[j] != '<'
    ensures Passed(p, next, off + |body| + 9) && Scan(c, p, st) == Scan(c, p, next)
    ensures next.blocks == st.blocks + ServerBlocks(c, stream, st.streamDone, body)
    ensures next.streamDone == (st.streamDone || (stream && !c.safe))
  {
    hide BodyOk, Find, Scan, Slice, Tags, Closing, Holds, Emit, Fits, EndTag, ScriptClosed;
    EndFound(p, st.adp, off, body, end, None, "script", "/script");
    ScriptScan(c, p, st);
    var t := Seen(off + |body|, off + |body| + 8, "/script");
    next := ScriptClosed(c, p, st, t);
    CloseServer(c, p, st, t, body);
    LastChar(p, off, body, end);
  }

  lemma LastChar(p: string, off: nat, body: string, end: string)
    requires Holds(p, off, body + EndTag(end)) && BodyOk(body, end, None, "script", "/script")
    ensures off + |body| + 8 < |p| && p[off + |body| + 8] == '>'
  {
    hide Holds, Tags, Closing;
    var tail := body + EndTag(end);
    HoldsFits(p, off, tail);
    HoldsAt(p, off, tail);
    assert p[off + (|tail| - 1)] == tail[|tail| - 1] == '>';
  }

  lemma CallNonEmpty(c: Config, tag: Tag, atts: string, body: Option<string>)
    ensures TagCall(c, tag, atts, body) != ""
  {
    hide AppendAll, AppendElement;
  }

  lemma PassLone(c: Config, p: string, st: State, q: nat, it: Item) returns (next: State)
    requires AtItem(p, st, q) && it.Lone? && ItemOk(c, it) && Holds(p, q, PrintItem(it))
    ensures Passed(p, next, q + |PrintItem(it)|) && next.streamDone == st.streamDone
    ensures next.blocks == AddText(p, st, q) + BlocksOf(c, it, st.streamDone)
    ensures Fits(p, st) && Scan(c, p, st) == Scan(c, p, next)
  {
    hide StartOk, Find, Step, Scan, Slice, Holds, AddText, Emit, GetTag, TagEnd, Start, TagCall, Lower, Named;
    StepStart(c, p, st, q, it.spelled, it.atts);
    StartFound(p, q, it.spelled, it.atts);
    NamedIsLookup(c, it.tag.name);
    var e := q + |Start(it.spelled, it.atts)|;
    ScanTurn(c, p, st);
    next := StepTag(c, p, st, q, e);
    CallNonEmpty(c, it.tag, it.atts, None);
    EmitWritable(Block(Script, TagCall(c, it.tag, it.atts, None)));
  }

  /** The start tag of a registered tag with an end tag. */
  lemma OpenPair(c: Config, p: string, st: State, q: nat, tag: Tag, spelled: string, atts: string) returns (st1: State)
    requires AtItem(p, st, q) && StartOk(spelled, atts) && Registered(c, tag, spelled, atts) && tag.endtag.Some?
    requires Holds(p, q, Start(spelled, atts) + ">")
    ensures var e := q + |Start(spelled, atts)|;
            && e < |p| && st1.adp <= e + 1 && |atts| <= e && p[e - |atts|..e] == atts
            && st1 == st.(mode := InTag(tag, e - |atts|, e), level := 1, adp := st1.adp, blocks := AddText(p, st, q))
            && (forall j :: st1.adp <= j < e + 1 ==> p[j] != '<')
            && Fits(p, st) && Fits(p, st1) && Scan(c, p, st) == Scan(c, p, st1)
  {
    hide StartOk, Find, Step, Scan, Holds, AddText, GetTag, TagEnd, Start, Lower, Named;
    StepStart(c, p, st, q, spelled, atts);
    StartFound(p, q, spelled, atts);
    NamedIsLookup(c, tag.name);
    st1 := StepTag(c, p, st, q, q + |Start(spelled, atts)|);
    ScanTurn(c, p, st);
  }

  /**
   * A start tag that is neither registered nor a server-side script is text: the search goes on
   * behind its name, and nothing is appended.
   */
  lemma OtherTagIsText(c: Config, p: string, st: State, q: nat, spelled: string, atts: string)
    requires AtItem(p, st, q) && StartOk(spelled, atts) && Holds(p, q, Start(spelled, atts) + ">")
    requires Lower(spelled) !in c.tags && Lower(spelled) !in c.fallback
    requires !(Lower(spelled) == "script" && atts != "" && c.runsOnServer(atts))
    ensures Fits(p, st) && Step(c, p, st) == Some(st.(adp := q + 1 + |spelled|))
  {
    hide StartOk, Find, Step, Holds, AddText, GetTag, TagEnd, Start, Lower, Named;
    StepStart(c, p, st, q, spelled, atts);
    StartFound(p, q, spelled, atts);
    NamedIsLookup(c, Lower(spelled));
    LowerLength(spelled);
  }

  lemma LowerLength(s: string)
    ensures |Lower(s)| == |s|
  {
  }

  /** The body and the end tag of a registered tag. */
  lemma EndPair(
    c: Config, p: string, st: State, tag: Tag, close: string, from: nat, to: nat, body: string, end: string)
    returns (next: State)
    requires Fits(p, st) && st.mode == InTag(tag, from, to) && tag.endtag == Some(close) && st.level == 1
    requires from <= to < |p| && st.adp <= to + 1
    requires Holds(p, to + 1, body + EndTag(end)) && BodyOk(body, end, Skip(tag.name, close), tag.name, close)
    requires forall j :: st.adp <= j < to + 1 ==> p[j] != '<'
    ensures Passed(p, next, to + 1 + |body| + |close| + 2) && Scan(c, p, st) == Scan(c, p, next)
    ensures next.streamDone == st.streamDone
    ensures next.blocks == st.blocks + [Block(Script, TagCall(c, tag, p[from..to], Some(body)))]
  {
    hide BodyOk, Find, Scan, Slice, Tags, Closing, Holds, Emit, EndTag, TagCall, TagClosed, Skip;
    EndFound(p, st.adp, to + 1, body, end, Skip(tag.name, close), tag.name, close);
    TagScan(c, p, st);
    var t := Seen(to + 1 + |body|, to + 1 + |body| + |close| + 1, close);
    next := TagClosed(c, p, st, t);
    ClosePair(c, p, st, t, body);
  }

  /** What the end tag of a registered tag appends. */
  lemma ClosePair(c: Config, p: string, st: State, t: Seen, body: string)
    requires st.mode.InTag? && st.mode.from <= st.mode.to < |p| && st.mode.to < t.at
    requires Slice(p, st.mode.to + 1, t.at) == body
    ensures var next := TagClosed(c, p, st, t);
            && next.blocks == st.blocks + [Block(Script, TagCall(c, st.mode.tag, p[st.mode.from..st.mode.to], Some(body)))]
            && next.streamDone == st.streamDone
            && next.mode.Next? && next.adp == t.at + |t.name| + 2 && next.text == t.end + 1
  {
    hide Emit, Slice, TagCall;
    CallNonEmpty(c, st.mode.tag, p[st.mode.from..st.mode.to], Some(body));
    EmitWritable(Block(Script, TagCall(c, st.mode.tag, p[st.mode.from..st.mode.to], Some(body))));
  }

  lemma PassPair(c: Config, p: string, st: State, q: nat, it: Item) returns (next: State)
    requires AtItem(p, st, q) && it.Pair? && ItemOk(c, it) && Holds(p, q, PrintItem(it))
    ensures Passed(p, next, q + |PrintItem(it)|) && next.streamDone == st.streamDone
    ensures next.blocks == AddText(p, st, q) + BlocksOf(c, it, st.streamDone)
    ensures Fits(p, st) && Scan(c, p, st) == Scan(c, p, next)
  {
    hide StartOk, BodyOk, Find, Scan, Slice, Holds, AddText, Start, TagCall, Registered, EndTag;
    var close := it.tag.endtag.value;
    HoldsParts(p, q, Start(it.spelled, it.atts) + ">", it.body + EndTag(it.end));
    var st1 := OpenPair(c, p, st, q, it.tag, it.spelled, it.atts);
    next := EndPair(c, p, st1, it.tag, close, st1.mode.from, st1.mode.to, it.body, it.end);
    BodyEndLength(it.body, it.end, Skip(it.tag.name, close), it.tag.name, close);
  }

  /** Any item but a text: it is passed, and its blocks are appended behind the text before it. */
  lemma PassItem(c: Config, p: string, st: State, q: nat, it: Item) returns (next: State)
    requires AtItem(p, st, q) && !IsText(it) && ItemOk(c, it) && Holds(p, q, PrintItem(it))
    ensures Passed(p, next, q + |PrintItem(it)|) && next.streamDone == Streaming(c, it, st.streamDone)
    ensures next.blocks == AddText(p, st, q) + BlocksOf(c, it, st.streamDone)
    ensures Fits(p, st) && Scan(c, p, st) == Scan(c, p, next)
  {
    hide Scan, Holds, AddText, Find, TagCall, Print, Writable, StartOk, BodyOk, Start;
    match it {
      case Piece(b) => next := PassCode(c, p, st, q, b);
      case Server(_, _, _, _) => next := PassServer(c, p, st, q, it);
      case Lone(_, _, _) => next := PassLone(c, p, st, q, it);
      case Pair(_, _, _, _, _) => next := PassPair(c, p, st, q, it);
    }
  }

  /** Such an item begins with "<" and has a ">". */
  lemma ItemBegins(c: Config, p: string, q: nat, it: Item)
    requires !IsText(it) && ItemOk(c, it) && Holds(p, q, PrintItem(it))
    ensures At(p, q, '<') && exists e :: q <= e < |p| && p[e] == '>'
  {
    hide Holds, Close, Find2, Writable, Start, BodyOk, TagEnd, GetTag, StartOk;
    match it {
      case Piece(b) =>
        CodeAt(p, q, b);
        assert p[Find2(p, q, '%', '>') + 1] == '>';
      case Lone(tag, spelled, atts) => StartFound(p, q, spelled, atts);
      case Server(spelled, atts, body, end) =>
        HoldsParts(p, q, Start(spelled, atts) + ">", body + EndTag(end));
        StartFound(p, q, spelled, atts);
      case Pair(tag, spelled, atts, body, end) =>
        HoldsParts(p, q, Start(spelled, atts) + ">", body + EndTag(end));
        StartFound(p, q, spelled, atts);
    }
  }

  // ----- scanning a whole document

  /** Reading a text, and getting to the item that follows it. */
  lemma PassText(c: Config, p: string, st: State, b: Block, q: nat) returns (next: State)
    requires Fits(p, st) && st.mode.Next? && q < |p| && b.kind == Text && b.body != ""
    requires QuietText(c, p, st.adp, q) && Slice(p, st.text, q) == b.body
    ensures AtItem(p, next, q) && next.streamDone == st.streamDone
    ensures AddText(p, next, q) == st.blocks + [b] && Scan(c, p, st) == Scan(c, p, next)
  {
    hide Find, Emit, Scan, Slice, QuietText;
    var a := ScanText(c, p, st, q);
    next := st.(adp := a);
    EmitWritable(b);
  }

  /** Reading a text at the end of the page. */
  lemma PassLast(c: Config, p: string, st: State, b: Block)
    requires Fits(p, st) && st.mode.Next? && b.kind == Text && b.body != ""
    requires QuietText(c, p, st.adp, |p|) && Slice(p, st.text, |p|) == b.body
    ensures AddText(p, Scan(c, p, st), |p|) == st.blocks + [b]
  {
    hide Find, Emit, Scan, Slice, QuietText;
    var a := ScanText(c, p, st, |p|);
    EmitWritable(b);
  }

  /** Right behind one item, at the next one. */
  lemma NextItem(c: Config, p: string, st: State, off: nat)
    requires Passed(p, st, off) && At(p, off, '<')
    ensures AtItem(p, st, off) && AddText(p, st, off) == st.blocks
  {
    FindSkips(p, st.adp, off);
  }

  lemma ScanNothing(c: Config, p: string, st: State)
    requires Passed(p, st, |p|)
    ensures Fits(p, st) && AddText(p, Scan(c, p, st), |p|) == st.blocks
  {
    hide Step, Scan;
    FindSkips(p, st.adp, |p|);
    NoMore(c, p, st);
  }

  /** The parser, at the beginning of a printed document, appends exactly its blocks. */
  lemma {:induction false} ScanPrinted(c: Config, p: string, st: State, off: nat, doc: seq<Item>)
    requires ItemsOk(c, doc) && Passed(p, st, off)
    requires Holds(p, off, PrintItems(doc)) && off + |PrintItems(doc)| == |p|
    requires QuietTexts(c, p, off, doc)
    ensures Fits(p, st)
    ensures AddText(p, Scan(c, p, st), |p|) == st.blocks + Expected(c, doc, st.streamDone)
    decreases |doc|
  {
    hide Find, Step, Scan, ItemOk, ItemsOk, PrintItem, PrintItems, QuietTexts, QuietText, Holds, Slice, AddText, Expected, BlocksOf, Streaming;
    ExpectedStep(c, doc, st.streamDone);
    if doc == [] {
      NothingPrinted();
      ScanNothing(c, p, st);
    } else {
      PrintHead(p, off, doc);
      Head(c, p, off, doc);
      if !IsText(doc[0]) {
        ItemBegins(c, p, off, doc[0]);
        NextItem(c, p, st, off);
        var next := PassItem(c, p, st, off, doc[0]);
        ScanPrinted(c, p, next, off + |PrintItem(doc[0])|, doc[1..]);
        Associates(st.blocks, BlocksOf(c, doc[0], st.streamDone), Expected(c, doc[1..], next.streamDone));
      } else {
        ScanTextAndNext(c, p, st, off, doc);
      }
    }
  }

  /** The case of a text at the beginning. */
  lemma {:induction false} ScanTextAndNext(c: Config, p: string, st: State, off: nat, doc: seq<Item>)
    requires ItemsOk(c, doc) && Passed(p, st, off) && doc != [] && IsText(doc[0])
    requires Holds(p, off, PrintItems(doc)) && off + |PrintItems(doc)| == |p|
    requires QuietTexts(c, p, off, doc)
    ensures Fits(p, st)
    ensures AddText(p, Scan(c, p, st), |p|) == st.blocks + Expected(c, doc, st.streamDone)
    decreases |doc|, 0
  {
    hide Find, Step, Scan, ItemOk, ItemsOk, PrintItem, PrintItems, QuietTexts, QuietText, Holds, Slice, AddText, Expected, BlocksOf, Streaming;
    var b, done := doc[0].b, st.streamDone;
    var q := off + |b.body|;
    PrintHead(p, off, doc);
    Head(c, p, off, doc);
    TextIsQuiet(c, p, st, off, doc);
    ExpectedStep(c, doc, done);
    TextBlocks(c, doc[0], done);
    if |doc| == 1 {
      NothingPrinted();
      assert doc[1..] == [];
      ExpectedStep(c, doc[1..], done);
      PassLast(c, p, st, b);
    } else {
      PrintHead(p, q, doc[1..]);
      Head(c, p, q, doc[1..]);
      ExpectedStep(c, doc[1..], done);
      ItemBegins(c, p, q, doc[1]);
      var at := PassText(c, p, st, b, q);
      var next := PassItem(c, p, at, q, doc[1]);
      assert doc[1..][1..] == doc[2..];
      ScanPrinted(c, p, next, q + |PrintItem(doc[1])|, doc[2..]);
      Associates(st.blocks + [b], BlocksOf(c, doc[1], done), Expected(c, doc[2..], next.streamDone));
      Associates(st.blocks, [b], BlocksOf(c, doc[1], done) + Expected(c, doc[2..], next.streamDone));
    }
  }

  lemma Associates(a: seq<Block>, b: seq<Block>, d: seq<Block>)
    ensures (a + b) + d == a + (b + d)
  {
  }

  lemma TextBlocks(c: Config, it: Item, done: bool)
    requires IsText(it)
    ensures BlocksOf(c, it, done) == [it.b] && Streaming(c, it, done) == done
  {
  }

  lemma ExpectedStep(c: Config, doc: seq<Item>, done: bool)
    ensures Expected(c, doc, done) ==
              if doc == [] then [] else BlocksOf(c, doc[0], done) + Expected(c, doc[1..], Streaming(c, doc[0], done))
  {
    hide BlocksOf, Streaming;
  }

  lemma NothingPrinted()
    ensures PrintItems([]) == ""
  {
  }

  /** The conditions on a document, taken apart. */
  lemma Head(c: Config, p: string, off: nat, doc: seq<Item>)
    requires doc != [] && ItemsOk(c, doc) && QuietTexts(c, p, off, doc)
    ensures ItemOk(c, doc[0]) && ItemsOk(c, doc[1..])
    ensures |doc| > 1 && IsText(doc[0]) ==> !IsText(doc[1])
    ensures QuietTexts(c, p, off + |PrintItem(doc[0])|, doc[1..])
    ensures IsText(doc[0]) ==> PrintItem(doc[0]) == doc[0].b.body != ""
    ensures IsText(doc[0]) ==>
              forall i :: off <= i < off + |doc[0].b.body| && At(p, i, '<') ==> Quiet(c, p, i)
  {
    hide Quiet;
  }

  /** The head of a printed document, and the rest after it. */
  lemma PrintHead(p: string, off: nat, doc: seq<Item>)
    requires doc != [] && Holds(p, off, PrintItems(doc))
    ensures Holds(p, off, PrintItem(doc[0])) && Holds(p, off + |PrintItem(doc[0])|, PrintItems(doc[1..]))
    ensures |PrintItems(doc)| == |PrintItem(doc[0])| + |PrintItems(doc[1..])|
  {
    hide PrintItem, Holds;
    HoldsParts(p, off, PrintItem(doc[0]), PrintItems(doc[1..]));
  }

  /** A text that can be written has no beginning of inline code in it, nor at its end. */
  lemma TextHasNoCode(p: string, off: nat, b: Block)
    requires Writable(b) && b.kind == Text && Holds(p, off, b.body)
    requires off + |b.body| < |p| ==> p[off + |b.body|] == '<'
    ensures forall i :: off <= i < off + |b.body| && At(p, i, '<') ==> !Begins(p, i)
    ensures Slice(p, off, off + |b.body|) == b.body
  {
    var t := b.body;
    var q := off + |t|;
    forall i | off <= i < q && At(p, i, '<') ensures !Begins(p, i) {
      assert forall k :: 0 <= k < |t| ==> p[off + k] == p[off..q][k] == t[k];
      var k := i - off;
      assert OpenAt(t, k) ==> At(t, k + 2, '>') && p[off + (k + 2)] == '>';
      assert k + 1 < |t| ==> p[off + (k + 1)] == t[k + 1];
    }
  }

  /** The first item of a document is a text that the parser passes over. */
  lemma TextIsQuiet(c: Config, p: string, st: State, off: nat, doc: seq<Item>)
    requires ItemsOk(c, doc) && doc != [] && IsText(doc[0]) && QuietTexts(c, p, off, doc) && Passed(p, st, off)
    requires Holds(p, off, PrintItems(doc)) && off + |PrintItems(doc)| == |p|
    ensures QuietText(c, p, st.adp, off + |doc[0].b.body|)
    ensures Slice(p, off, off + |doc[0].b.body|) == doc[0].b.body
  {
    hide Quiet, ItemsOk, PrintItems, PrintItem, QuietTexts, Slice, Holds, Begins, ItemOk, Writable;
    var q := off + |doc[0].b.body|;
    PrintHead(p, off, doc);
    Head(c, p, off, doc);
    if |doc| > 1 {
      PrintHead(p, q, doc[1..]);
      Head(c, p, q, doc[1..]);
      ItemBegins(c, p, q, doc[1]);
    } else {
      NothingPrinted();
      assert doc[1..] == [];
    }
    TextWritable(c, doc[0]);
    TextHasNoCode(p, off, doc[0].b);
  }

  lemma TextWritable(c: Config, it: Item)
    requires IsText(it) && ItemOk(c, it)
    ensures Writable(it.b)
  {
  }

  /**
   * Parsing a printed document in multi-block mode gives back its blocks, in order: texts and
   * inline code as they are, server-side scripts as their bodies, and registered tags as
   * the calls they stand for; when no "<" of its texts begins a server-side script or a
   * registered tag.
   */
  lemma ParseUndoesPrint(c: Config, doc: seq<Item>)
    requires ItemsOk(c, doc) && QuietTexts(c, PrintItems(doc), 0, doc)
    ensures Blocks(c, PrintItems(doc)) == Expected(c, doc, false)
  {
    hide Scan, PrintItems, ItemsOk, QuietTexts, Expected;
    var p := PrintItems(doc);
    assert p[0..|p|] == p;
    ScanPrinted(c, p, START, 0, doc);
    assert [] + Expected(c, doc, false) == Expected(c, doc, false);
  }

  // ----- the documents this holds for, told from the items alone

  /** No "<" of a text is followed by the name of a registered tag or by "script", in any mix of cases. */
  predicate NoTags(c: Config, it: Item) {
    IsText(it) ==>
      forall i, j :: 0 < i <= j <= |it.b.body| && it.b.body[i - 1] == '<' ==> NoName(c, Lower(it.b.body[i..j]))
  }

  predicate NoName(c: Config, name: string) {
    name != "script" && name !in c.tags && name !in c.fallback
  }

  /** The name of a tag that begins in a text lies in the text. */
  lemma NameInText(p: string, s: nat, e: nat, q: nat)
    requires s + 1 < e <= |p| && FirstChar(p[s + 1]) && s < q <= |p| && (q < |p| ==> p[q] == '<')
    ensures var name := GetTag(p, s, e).name;
            s + 1 + |name| <= q && name == Lower(p[s + 1..s + 1 + |name|])
  {
    hide Lower;
    NameStops(p, s, e, q);
    assert SkipSpaceTo(p, s + 1, e) == s + 1;
  }

  lemma PlainTextIsQuiet(c: Config, p: string, off: nat, it: Item)
    requires NoTags(c, it) && IsText(it) && Holds(p, off, it.b.body)
    requires off + |it.b.body| < |p| ==> p[off + |it.b.body|] == '<'
    ensures forall i :: off <= i < off + |it.b.body| && At(p, i, '<') ==> Quiet(c, p, i)
  {
    hide TagEnd, GetTag, Lower, Holds;
    var t := it.b.body;
    var q := off + |t|;
    HoldsAt(p, off, t);
    HoldsFits(p, off, t);
    forall i | off <= i < q && At(p, i, '<') ensures Quiet(c, p, i) {
      if i + 1 < |p| && FirstChar(p[i + 1]) && TagEnd(p, i) < |p| {
        TagEndSkipsQuotedOnly(p, i);
        var name := GetTag(p, i, TagEnd(p, i)).name;
        NameInText(p, i, TagEnd(p, i), q);
        var k := i - off;
        assert t[k] == '<';
        SlicesAgree(p, off, t, k + 1, k + 1 + |name|);
        assert NoName(c, Lower(t[k + 1..k + 1 + |name|]));
      }
    }
  }

  lemma {:induction false} PlainIsQuiet(c: Config, p: string, off: nat, doc: seq<Item>)
    requires ItemsOk(c, doc) && forall it :: it in doc ==> NoTags(c, it)
    requires Holds(p, off, PrintItems(doc)) && off + |PrintItems(doc)| == |p|
    ensures QuietTexts(c, p, off, doc)
    decreases |doc|
  {
    hide Quiet, ItemOk, NoTags, PrintItems, PrintItem, Holds;
    if doc != [] {
      var q := off + |PrintItem(doc[0])|;
      PrintHead(p, off, doc);
      PlainIsQuiet(c, p, q, doc[1..]);
      if IsText(doc[0]) {
        TextPrints(doc[0]);
        TextIsFollowed(c, p, q, doc);
        assert doc[0] in doc;
        PlainTextIsQuiet(c, p, off, doc[0]);
      }
    }
  }

  lemma TextPrints(it: Item)
    requires IsText(it)
    ensures PrintItem(it) == it.b.body
  {
  }

  lemma TextIsFollowed(c: Config, p: string, q: nat, doc: seq<Item>)
    requires ItemsOk(c, doc) && doc != [] && IsText(doc[0])
    requires Holds(p, q, PrintItems(doc[1..])) && q + |PrintItems(doc[1..])| == |p|
    ensures q < |p| ==> p[q] == '<'
  {
    hide ItemOk, PrintItems, PrintItem, Holds;
    if |doc| > 1 {
      PrintHead(p, q, doc[1..]);
      ItemBegins(c, p, q, doc[1]);
    } else {
      assert doc[1..] == [];
      NothingPrinted();
    }
  }

  /** The same with conditions on the items alone. */
  lemma ParseUndoesPrintPlain(c: Config, doc: seq<Item>)
    requires ItemsOk(c, doc) && forall it :: it in doc ==> NoTags(c, it)
    ensures Blocks(c, PrintItems(doc)) == Expected(c, doc, false)
  {
    hide PrintItems, ItemsOk, QuietTexts, NoTags, Expected;
    var p := PrintItems(doc);
    assert p[0..|p|] == p;
    PlainIsQuiet(c, p, 0, doc);
    ParseUndoesPrint(c, doc);
  }

  // ----- texts and inline code only

  function Pieces(bs: seq<Block>): seq<Item> {
    if bs == [] then [] else [Item.Piece(bs[0])] + Pieces(bs[1..])
  }

  lemma {:induction false} ExpectedPieces(c: Config, bs: seq<Block>, done: bool)
    requires !c.safe
    ensures Expected(c, Pieces(bs), done) == bs
  {
    if bs != [] {
      ExpectedPieces(c, bs[1..], done);
      assert Pieces(bs)[1..] == Pieces(bs[1..]);
    }
  }

  /** A document of texts and inline code is exactly what the parser gives back. */
  lemma ParseGivesBlocks(c: Config, bs: seq<Block>)
    requires !c.safe && ItemsOk(c, Pieces(bs)) && forall it :: it in Pieces(bs) ==> NoTags(c, it)
    ensures Blocks(c, PrintItems(Pieces(bs))) == bs
  {
    hide Blocks, PrintItems, ItemsOk, NoTags, Expected, Pieces;
    ParseUndoesPrintPlain(c, Pieces(bs));
    ExpectedPieces(c, bs, false);
  }

  // ----- code in the attributes of a registered tag

  /** A registered tag without an end tag, and where the scanner goes on. */
  lemma StepLone(c: Config, p: string, st: State, q: nat, tag: Tag, spelled: string, atts: string)
    requires AtItem(p, st, q) && StartReads(spelled, atts) && Holds(p, q, Start(spelled, atts) + ">")
    requires Registered(c, tag, spelled, atts) && tag.endtag.None?
    ensures var next := st.(adp := q + 1 + |spelled|, text := q + |Start(spelled, atts)| + 1,
                            blocks := AddText(p, st, q) + [Block(Script, TagCall(c, tag, atts, None))]);
            Fits(p, st) && Fits(p, next) && Scan(c, p, st) == Scan(c, p, next)
  {
    hide StartReads, Find, Step, Scan, Slice, Holds, AddText, Emit, GetTag, TagEnd, Start, TagCall, Lower, Named;
    StepAnyStart(c, p, st, q, spelled, atts);
    StartFoundAny(p, q, spelled, atts);
    NamedIsLookup(c, tag.name);
    LowerLength(spelled);
    ScanTurn(c, p, st);
    CallNonEmpty(c, tag, atts, None);
    EmitWritable(Block(Script, TagCall(c, tag, atts, None)));
  }

  /** Where the parts of the attributes are. */
  lemma InAttributes(p: string, q: nat, spelled: string, before: string, code: string, after: string)
    requires Holds(p, q, Start(spelled, before + code + after) + ">") && NoTagIn(before) && At(code, 0, '<')
    ensures var s := q + 2 + |spelled| + |before|;
            && s < |p| && Holds(p, s, code) && Holds(p, s + |code|, after + ">")
            && Find(p, q + 1 + |spelled|, '<') == s
  {
    hide Holds, Find;
    var atts := before + code + after;
    StartChars(p, q, spelled, atts);
    var o := q + 2 + |spelled|;
    assert Start(spelled, atts) + ">" == ("<" + spelled + " " + before) + (code + (after + ">"));
    HoldsParts(p, q, "<" + spelled + " " + before, code + (after + ">"));
    HoldsParts(p, o + |before|, code, after + ">");
    HoldsParts(p, o, before + code, after);
    HoldsParts(p, o, before, code);
    HoldsAt(p, o, before);
    HoldsAt(p, o + |before|, code);
    assert p[o + |before|] == code[0];
  }

  /**
   * The scanner goes on behind the name of a registered tag, not behind the tag: inline code in
   * its attributes is passed to the tag as text, and it is run as well.  What follows the code
   * in the tag is then taken for text of the page.
   */
  lemma PassCodeInTag(
    c: Config, p: string, st: State, q: nat, tag: Tag, spelled: string, before: string, b: Block, after: string)
    returns (next: State)
    requires var atts := before + Print(b) + after;
             && AtItem(p, st, q) && StartReads(spelled, atts) && Holds(p, q, Start(spelled, atts) + ">")
             && Registered(c, tag, spelled, atts)
    requires tag.endtag.None? && Writable(b) && b.kind != Text && NoTagIn(before)
    ensures Passed(p, next, q + 2 + |spelled| + |before| + |Print(b)|)
    ensures Holds(p, next.text, after + ">")
    ensures next.blocks == AddText(p, st, q) + [Block(Script, TagCall(c, tag, before + Print(b) + after, None))]
                           + (if c.safe then [] else [b])
    ensures Fits(p, st) && Scan(c, p, st) == Scan(c, p, next)
  {
    hide StartReads, Find, Step, Scan, Slice, Holds, AddText, Emit, TagCall, Registered, Writable, NoTagIn, Print, Start;
    var atts := before + Print(b) + after;
    CodeBegins(b);
    InAttributes(p, q, spelled, before, Print(b), after);
    StepLone(c, p, st, q, tag, spelled, atts);
    var st1 := st.(adp := q + 1 + |spelled|, text := q + |Start(spelled, atts)| + 1,
                   blocks := AddText(p, st, q) + [Block(Script, TagCall(c, tag, atts, None))]);
    var s := q + 2 + |spelled| + |before|;
    StartLength(spelled, atts);
    NothingAdded(p, st1, s);
    next := PassCode(c, p, st1, s, b);
  }

  lemma StartLength(name: string, atts: string)
    ensures |Start(name, atts)| == |name| + |atts| + 2
  {
  }

  lemma CodeBegins(b: Block)
    requires b.kind != Text
    ensures At(Print(b), 0, '<')
  {
  }

  lemma NothingAdded(p: string, st: State, upto: nat)
    requires upto < st.text
    ensures AddText(p, st, upto) == st.blocks
  {
  }

  /** The same for a page that consists of such a tag. */
  lemma CodeInTagRuns(c: Config, tag: Tag, spelled: string, before: string, b: Block, after: string)
    requires var atts := before + Print(b) + after; StartReads(spelled, atts) && Registered(c, tag, spelled, atts)
    requires tag.endtag.None? && Writable(b) && b.kind != Text && NoTagIn(before) && NoTagIn(after)
    ensures var atts := before + Print(b) + after;
            Blocks(c, Start(spelled, atts) + ">") ==
              [Block(Script, TagCall(c, tag, atts, None))] + (if c.safe then [] else [b]) + [Block(Text, after + ">")]
  {
    hide StartReads, Find, Step, Scan, TagCall, Registered, Writable, Print, Slice;
    var atts := before + Print(b) + after;
    var p := Start(spelled, atts) + ">";
    assert p[0..|p|] == p && p[0] == '<';
    assert AtItem(p, START, 0) by { FirstIs(p); }
    var next := PassCodeInTag(c, p, START, 0, tag, spelled, before, b, after);
    assert AddText(p, START, 0) == [] by { NothingBefore(p); }
    RestIsText(c, p, next, after);
  }

  lemma FirstIs(p: string)
    requires At(p, 0, '<')
    ensures Find(p, 0, '<') == 0
  {
  }

  lemma NothingBefore(p: string)
    ensures AddText(p, START, 0) == []
  {
  }

  lemma RestIsText(c: Config, p: string, st: State, after: string)
    requires st.mode.Next? && st.adp <= st.text <= |p| && (forall j :: st.adp <= j < st.text ==> p[j] != '<')
    requires NoTagIn(after) && Holds(p, st.text, after + ">") && st.text + |after| + 1 == |p|
    ensures Fits(p, st) && AddText(p, Scan(c, p, st), |p|) == st.blocks + [Block(Text, after + ">")]
  {
    hide Holds, Find, Scan, Slice, Emit;
    HoldsAt(p, st.text, after + ">");
    assert forall j :: st.text <= j < |p| ==> p[j] != '<';
    assert Find(p, st.adp, '<') == |p|;
    NoMore(c, p, st);
    HoldsText(p, st.text, after + ">");
    assert Slice(p, st.text, |p|) == after + ">" by { RestOf(p, st.text); }
    EmitWritable(Block(Text, after + ">"));
  }

  lemma RestOf(p: string, o: nat)
    requires o <= |p|
    ensures Slice(p, o, |p|) == p[o..|p|]
  {
  }
}
