/** What AdpParseAdp of nsd/adpparse.c keeps of every page, and what it never lets through. */
module AdpWhole {
  import opened Prelude
  import opened Chars
  import opened AdpText
  import opened AdpCode
  import opened AdpScan
  import opened AdpTags
  import opened AdpPrint

  // ----- nothing of a page is lost

  /** The text of a page as a sequence of segments, which may be empty. */
  function PrintSegments(segs: seq<Block>): string {
    if segs == [] then "" else PrintSegments(segs[..|segs| - 1]) + Print(segs[|segs| - 1])
  }

  /** The segments that are not empty: AppendBlock leaves out the others. */
  function Full(segs: seq<Block>): seq<Block> {
    if segs == [] then []
    else Emit(Full(segs[..|segs| - 1]), segs[|segs| - 1].kind, segs[|segs| - 1].body)
  }

  lemma SegmentsSnoc(segs: seq<Block>, b: Block)
    ensures PrintSegments(segs + [b]) == PrintSegments(segs) + Print(b)
    ensures Full(segs + [b]) == Emit(Full(segs), b.kind, b.body)
  {
    hide Print, Emit;
    assert (segs + [b])[..|segs + [b]| - 1] == segs;
  }

  /** No tag is registered, and no script runs on the server. */
  ghost predicate Plain(c: Config) {
    c.tags == map[] && c.fallback == map[] && !c.safe && forall s :: !c.runsOnServer(s)
  }

  /** The segments make up the page as far as the scanner has appended it. */
  ghost predicate Covers(p: string, st: State, segs: seq<Block>) {
    && (st.mode.Next? || st.mode.Inline?) && Fits(p, st) && st.text <= st.adp
    && PrintSegments(segs) == p[..st.text] && Full(segs) == st.blocks
  }

  /** The text up to `upto` becomes a segment. */
  lemma CoverText(p: string, st: State, segs: seq<Block>, upto: nat)
    requires st.text <= upto <= |p| && PrintSegments(segs) == p[..st.text] && Full(segs) == st.blocks
    ensures var segs' := segs + [Block(Text, p[st.text..upto])];
            PrintSegments(segs') == p[..upto] && Full(segs') == AddText(p, st, upto)
  {
    hide Emit;
    SegmentsSnoc(segs, Block(Text, p[st.text..upto]));
    assert p[..st.text] + p[st.text..upto] == p[..upto];
  }

  /** The block that inline code becomes. */
  function CodeBlock(p: string, s: nat, e: nat): Block {
    if At(p, s + 2, '=') then Block(Value, Slice(p, s + 3, e)) else Block(Script, Slice(p, s + 2, e))
  }

  lemma CodePrints(p: string, s: nat, e: nat)
    requires Begins(p, s) && s + 2 <= e && CloseAt(p, e)
    ensures Print(CodeBlock(p, s, e)) == p[s..e + 2]
  {
    var h := if At(p, s + 2, '=') then s + 3 else s + 2;
    assert p[s..e + 2] == p[s..h] + p[h..e] + p[e..e + 2];
    assert p[s..h] == if At(p, s + 2, '=') then "<%=" else "<%";
    assert p[e..e + 2] == "%>";
  }

  /** Inline code that ends at `e` becomes a segment. */
  lemma CoverCode(p: string, segs: seq<Block>, s: nat, e: nat)
    requires Begins(p, s) && s + 2 <= e && CloseAt(p, e) && PrintSegments(segs) == p[..s]
    ensures PrintSegments(segs + [CodeBlock(p, s, e)]) == p[..e + 2]
  {
    hide PrintSegments, Full, Print, CodeBlock, Emit;
    SegmentsSnoc(segs, CodeBlock(p, s, e));
    CodePrints(p, s, e);
    assert p[..s] + p[s..e + 2] == p[..e + 2];
  }

  /** The end of inline code lies behind its beginning. */
  lemma CloseBehind(p: string, s: nat)
    requires Begins(p, s) && Close(p, s, 0) < |p|
    ensures s + 2 <= Close(p, s, 0) && CloseAt(p, Close(p, s, 0))
  {
    CloseSkips(p, s);
  }

  lemma CloseSkips(p: string, s: nat)
    requires Begins(p, s)
    ensures s + 2 <= |p| && Close(p, s, 0) == Close(p, s + 2, 1)
  {
    assert Close(p, s, 0) == Close(p, s + 1, 1);
    assert !OpenAt(p, s + 1) && !CloseAt(p, s + 1);
  }

  lemma InlineCovers(c: Config, p: string, st: State, segs: seq<Block>, s: nat) returns (segs': seq<Block>)
    requires Plain(c) && Covers(p, st, segs) && st.adp <= s && Begins(p, s)
    requires StepInline(c, p, st, s).Some?
    ensures Covers(p, StepInline(c, p, st, s).value, segs')
  {
    hide Close, Emit, Find2, PrintSegments, Full, Slice;
    var e := Close(p, s, 0);
    if e == |p| {
      CoverText(p, st, segs, s + 2);
      segs' := segs + [Block(Text, p[st.text..s + 2])];
    } else {
      CloseBehind(p, s);
      CoverText(p, st, segs, s);
      var segs1 := segs + [Block(Text, p[st.text..s])];
      CoverCode(p, segs1, s, e);
      SegmentsSnoc(segs1, CodeBlock(p, s, e));
      segs' := segs1 + [CodeBlock(p, s, e)];
    }
  }

  lemma NextCovers(c: Config, p: string, st: State, segs: seq<Block>)
    requires Plain(c) && Covers(p, st, segs) && st.mode.Next? && Step(c, p, st).Some?
    ensures Covers(p, Step(c, p, st).value, segs)
  {
    hide PrintSegments, Full, TagEnd, GetTag, Emit;
  }

  lemma {:induction false} ScanCovers(c: Config, p: string, st: State, segs: seq<Block>) returns (segs': seq<Block>)
    requires Plain(c) && Covers(p, st, segs)
    ensures var r := Scan(c, p, st);
            PrintSegments(segs') == p && Full(segs') == AddText(p, r, |p|)
    decreases |p| - st.adp, if st.mode.Next? then 1 else 0
  {
    hide Scan, StepInline, StepNext, PrintSegments, Full, Emit;
    ScanTurn(c, p, st);
    var next := Step(c, p, st);
    if next.None? {
      CoverText(p, st, segs, |p|);
      segs' := segs + [Block(Text, p[st.text..|p|])];
      assert p[..|p|] == p;
    } else if st.mode.Next? {
      NextCovers(c, p, st, segs);
      segs' := ScanCovers(c, p, next.value, segs);
    } else {
      var segs1 := InlineCovers(c, p, st, segs, Find(p, st.adp, '<'));
      segs' := ScanCovers(c, p, next.value, segs1);
    }
  }

  /**
   * Without registered tags and server-side scripts every page is its blocks: it is the text of
   * a sequence of segments, of which those that are not empty are the blocks of the page.
   */
  lemma PageIsItsBlocks(c: Config, p: string) returns (segs: seq<Block>)
    requires Plain(c)
    ensures PrintSegments(segs) == p && Full(segs) == Blocks(c, p)
  {
    hide Scan;
    assert p[..0] == "";
    segs := ScanCovers(c, p, START, []);
  }

  // ----- safe mode

  /** A text, or the call of a registered tag. */
  ghost predicate Harmless(c: Config, b: Block) {
    || b.kind == Text
    || (b.kind == Script && exists name, tag, atts, body :: Named(c, name, tag) && b.body == TagCall(c, tag, atts, body))
  }

  ghost predicate AllHarmless(c: Config, bs: seq<Block>) {
    forall i :: 0 <= i < |bs| ==> Harmless(c, bs[i])
  }

  /** The blocks so far are harmless, and the tag the scanner is in is registered. */
  ghost predicate SafeState(c: Config, st: State) {
    AllHarmless(c, st.blocks) && (st.mode.InTag? ==> exists name :: Named(c, name, st.mode.tag))
  }

  lemma EmitSafe(c: Config, bs: seq<Block>, kind: Kind, body: string)
    requires AllHarmless(c, bs) && (body != "" ==> Harmless(c, Block(kind, body)))
    ensures AllHarmless(c, Emit(bs, kind, body))
  {
    hide Harmless;
  }

  lemma CallIsHarmless(c: Config, name: string, tag: Tag, atts: string, body: Option<string>)
    requires Named(c, name, tag)
    ensures Harmless(c, Block(Script, TagCall(c, tag, atts, body)))
  {
    hide TagCall, Named;
  }

  lemma TextSafe(c: Config, p: string, st: State, upto: nat)
    requires AllHarmless(c, st.blocks)
    ensures AllHarmless(c, AddText(p, st, upto))
  {
    hide Emit, Slice, AllHarmless;
    EmitSafe(c, st.blocks, Text, Slice(p, st.text, upto));
  }

  lemma StepSafe(c: Config, p: string, st: State)
    requires c.safe && Fits(p, st) && SafeState(c, st) && Step(c, p, st).Some?
    ensures SafeState(c, Step(c, p, st).value)
  {
    hide AllHarmless, Emit, AddText, TagCall, Find, Find2, Close, TagEnd, GetTag, Slice, Named, StepTag, StepInTag;
    var s := Find(p, st.adp, '<');
    TextSafe(c, p, st, s);
    TextSafe(c, p, st, s + 2);
    match st.mode {
      case Next =>
        if !Begins(p, s) && s + 1 < |p| && FirstChar(p[s + 1]) {
          TagSafe(c, p, st, s, TagEnd(p, s));
        }
      case InTag(_, _, _) => InTagSafe(c, p, st, s, Find(p, s, '>'));
      case _ =>
    }
  }

  lemma TagSafe(c: Config, p: string, st: State, s: nat, e: nat)
    requires SafeState(c, st) && !st.mode.InTag? && s < e < |p|
    ensures SafeState(c, StepTag(c, p, st, s, e))
  {
    hide AllHarmless, Emit, AddText, TagCall, GetTag, Named, Lookup;
    TextSafe(c, p, st, s);
    var t := GetTag(p, s, e);
    NamedIsLookup(c, t.name);
    if Lookup(c, t.name).Some? {
      var tag := Lookup(c, t.name).value;
      CallIsHarmless(c, t.name, tag, p[t.atts..e], None);
      EmitSafe(c, AddText(p, st, s), Script, TagCall(c, tag, p[t.atts..e], None));
    }
  }

  lemma InTagSafe(c: Config, p: string, st: State, s: nat, e: nat)
    requires SafeState(c, st) && Fits(p, st) && st.mode.InTag? && s < e < |p|
    ensures SafeState(c, StepInTag(c, p, st, s, e))
  {
    hide AllHarmless, Emit, TagCall, GetTag, Named, Slice;
    var m := st.mode;
    var name :| Named(c, name, m.tag);
    var body := if s > m.to then Some(Slice(p, m.to + 1, s)) else None;
    CallIsHarmless(c, name, m.tag, p[m.from..m.to], body);
    EmitSafe(c, st.blocks, Script, TagCall(c, m.tag, p[m.from..m.to], body));
  }

  lemma {:induction false} ScanSafe(c: Config, p: string, st: State)
    requires c.safe && Fits(p, st) && SafeState(c, st)
    ensures SafeState(c, Scan(c, p, st))
    decreases |p| - st.adp, if st.mode.Next? then 1 else 0
  {
    hide Step, Scan, SafeState;
    ScanTurn(c, p, st);
    if Step(c, p, st).Some? {
      StepSafe(c, p, st);
      ScanSafe(c, p, Step(c, p, st).value);
    }
  }

  /** In safe mode no page gets code of its own to run: only texts and calls of registered tags. */
  lemma SafePageHasNoCode(c: Config, p: string)
    requires c.safe
    ensures AllHarmless(c, Blocks(c, p))
  {
    hide Scan, AllHarmless;
    NothingHarms(c);
    ScanSafe(c, p, START);
    TextSafe(c, p, Scan(c, p, START), |p|);
  }

  lemma NothingHarms(c: Config)
    ensures AllHarmless(c, [])
  {
  }
}
