/**
 * AdpParseAdp of nsd/adpparse.c: the four-state scanner that cuts a page into text blocks and
 * script blocks.
 */
module AdpScan {
  import opened Prelude
  import opened Chars
  import opened AdpText
  import opened AdpCode

  datatype TagType = TagAdp | TagProc | TagScript

  /** A registered tag; its name is its key in the table, in lower case. */
  datatype Tag = Tag(kind: TagType, name: string, endtag: Option<string>, content: string)

  /**
   * What the parser is given besides the page: the tag tables (the second one is the fallback
   * of a named tag set), the safe flag, list-element quoting, and ParseAtts: the attributes
   * of a region of the page, each with its name and value, and the flags of a script tag.
   */
  datatype Config = Config(
    tags: map<string, Tag>, fallback: map<string, Tag>, safe: bool,
    quote: string -> string,
    attributes: string -> seq<(string, string)>,
    runsOnServer: string -> bool, streams: string -> bool)

  /** `s[a..b]`, or nothing if the bounds cross. */
  function Slice(s: string, a: nat, b: nat): string {
    if a <= b <= |s| then s[a..b] else ""
  }

  // ----- tags

  /** The end of the tag name that begins at `i`: white space, "<", or the end `e` of the tag. */
  function NameEnd(s: string, i: nat, e: nat): (r: nat)
    requires i <= e <= |s|
    ensures i <= r <= e
    ensures forall j :: i <= j < r ==> s[j] != '<' && !IsSpace(s[j])
    decreases e - i
  {
    if i == e || IsSpace(s[i]) || s[i] == '<' then i else NameEnd(s, i + 1, e)
  }

  function SkipSpaceTo(s: string, i: nat, e: nat): (r: nat)
    requires i <= e <= |s|
    ensures i <= r <= e
    decreases e - i
  {
    if i == e || !IsSpace(s[i]) then i else SkipSpaceTo(s, i + 1, e)
  }

  /** GetTag: the name of the tag between "<" at `s` and its end `e`, and where its attributes begin. */
  datatype TagText = TagText(name: string, atts: nat)

  function GetTag(p: string, s: nat, e: nat): (t: TagText)
    requires s < e <= |p|
    ensures s + 1 + |t.name| <= t.atts <= e
  {
    var a := SkipSpaceTo(p, s + 1, e);
    var b := NameEnd(p, a, e);
    TagText(Lower(p[a..b]), SkipSpaceTo(p, b, e))
  }

  /** GetScript: a server-side script tag. */
  predicate IsServerScript(c: Config, p: string, t: TagText, e: nat)
    requires t.atts <= e <= |p|
  {
    t.atts < e && t.name == "script" && c.runsOnServer(p[t.atts..e])
  }

  function Lookup(c: Config, name: string): Option<Tag> {
    if name in c.tags then Some(c.tags[name])
    else if name in c.fallback then Some(c.fallback[name])
    else None
  }

  function AppendAll(c: Config, text: string, atts: seq<(string, string)>, names: bool): string
    decreases |atts|
  {
    if atts == [] then text
    else
      var t := if names then AppendElement(c.quote, text, atts[0].0) else text;
      AppendAll(c, AppendElement(c.quote, t, atts[0].1), atts[1..], names)
  }

  /** AppendTag: the script a registered tag stands for; `body` is the text up to its end tag. */
  function TagCall(c: Config, t: Tag, atts: string, body: Option<string>): string {
    var s0 := "ns_adp_append [";
    var s1 := if t.kind == TagAdp then s0 + "ns_adp_parse -- " else s0;
    var s2 := AppendElement(c.quote, s1, t.content);
    var s3 := if t.kind == TagProc then AppendAll(c, s2, c.attributes(atts), false) else s2;
    var s4 := if body.Some? then AppendElement(c.quote, s3, body.value) else s3;
    var s5 := if t.kind != TagProc
              then AppendAll(c, AppendElement(c.quote, s4 + " [ns_set create", t.name), c.attributes(atts), true) + "]"
              else s4;
    s5 + "]"
  }

  // ----- the scanner

  datatype Mode =
    | Next
    | Inline
    /** Inside a server-side script that begins at `start`. */
    | InScript(start: nat, stream: bool)
    /** Inside a registered tag whose attributes are `page[from..to]`. */
    | InTag(tag: Tag, from: nat, to: nat)

  /**
   * `adp` is where the search goes on, `text` where text not yet appended begins, `level` how
   * many tags of the kind looked for are open.
   */
  datatype State = State(mode: Mode, level: int, adp: nat, text: nat, streamDone: bool, blocks: seq<Block>)

  /** The "<" at `s` begins an inline code block. */
  predicate Begins(p: string, s: nat) {
    OpenAt(p, s) && !At(p, s + 2, '>')
  }

  ghost predicate Fits(p: string, st: State) {
    && st.adp <= |p|
    && (st.mode.Inline? ==> Begins(p, Find(p, st.adp, '<')))
    && (st.mode.InScript? ==> st.level >= 1)
    && (st.mode.InTag? ==> st.level >= 1 && st.mode.tag.endtag.Some? && st.mode.from <= st.mode.to < |p|)
  }

  function AddText(p: string, st: State, upto: nat): seq<Block> {
    Emit(st.blocks, Text, Slice(p, st.text, upto))
  }

  /** Case TagInlineCode at "<%". */
  function StepInline(c: Config, p: string, st: State, s: nat): (r: Option<State>)
    requires st.adp <= s && Begins(p, s)
    ensures r.Some? ==> r.value.adp > s && Fits(p, r.value)
  {
    if Find2(p, s, '%', '>') == |p| then None
    else
      var e := Close(p, s, 0);
      if e == |p| then
        Some(st.(mode := Next, adp := s + 2, text := s + 2, blocks := AddText(p, st, s + 2)))
      else
        var bs := AddText(p, st, s);
        var bs' := if c.safe then bs
                   else if At(p, s + 2, '=') then Emit(bs, Value, Slice(p, s + 3, e))
                   else Emit(bs, Script, Slice(p, s + 2, e));
        Some(st.(mode := Next, adp := e + 2, text := e + 2, blocks := bs'))
  }

  /** Case TagNext, once the start tag at `s` is known to end at `e`. */
  function StepTag(c: Config, p: string, st: State, s: nat, e: nat): (r: State)
    requires s < e < |p|
    ensures s < r.adp && Fits(p, r)
  {
    var t := GetTag(p, s, e);
    var st' := st.(adp := s + |t.name| + 1);
    if IsServerScript(c, p, t, e) then
      st'.(mode := InScript(e + 1, c.streams(p[t.atts..e])), level := 1, blocks := AddText(p, st, s))
    else
      var found := Lookup(c, t.name);
      if found.None? then st'.(mode := Next)
      else
        var bs := AddText(p, st, s);
        if found.value.endtag.None? then
          st'.(mode := Next, text := e + 1, blocks := Emit(bs, Script, TagCall(c, found.value, p[t.atts..e], None)))
        else
          st'.(mode := InTag(found.value, t.atts, e), level := 1, blocks := bs)
  }

  /** Case TagNext at "<". */
  function StepNext(c: Config, p: string, st: State, s: nat): (r: Option<State>)
    requires st.adp <= s < |p| && s == Find(p, st.adp, '<')
    ensures r.Some? ==> (r.value.adp > s || (r.value.adp == st.adp && r.value.mode.Inline?)) && Fits(p, r.value)
  {
    if Begins(p, s) then Some(st.(mode := Inline))
    else if s + 1 == |p| || !FirstChar(p[s + 1]) then Some(st.(mode := Next, adp := s + 1))
    else
      var e := TagEnd(p, s);
      if e == |p| then None else Some(StepTag(c, p, st, s, e))
  }

  const STREAM := "ns_adp_ctl stream on"

  /** Case TagScript at a tag that begins at `s` and ends at `e`. */
  function StepScript(c: Config, p: string, st: State, s: nat, e: nat): (r: State)
    requires st.mode.InScript? && st.level >= 1 && s < e < |p|
    ensures s < r.adp && Fits(p, r)
  {
    var m := st.mode;
    var t := GetTag(p, s, e);
    var st' := st.(adp := s + |t.name| + 1);
    if t.name == "script" then st'.(level := st.level + 1)
    else if t.name == "/script" then
      if st.level == 1 then
        var start := m.stream && !st.streamDone && !c.safe;
        var bs := if start then Emit(st.blocks, Script, STREAM) else st.blocks;
        st'.(mode := Next, level := 0, text := e + 1, streamDone := st.streamDone || start,
             blocks := if c.safe then st.blocks else Emit(bs, Script, Slice(p, m.start, s)))
      else st'.(level := st.level - 1)
    else st'
  }

  /** Case TagReg at a tag that begins at `s` and ends at `e`. */
  function StepInTag(c: Config, p: string, st: State, s: nat, e: nat): (r: State)
    requires Fits(p, st) && st.mode.InTag? && s < e < |p|
    ensures s < r.adp && Fits(p, r)
  {
    var m := st.mode;
    var t := GetTag(p, s, e);
    if t.name == m.tag.name then st.(level := st.level + 1, adp := s + |t.name| + 1)
    else if Some(t.name) == m.tag.endtag then
      var st' := st.(adp := s + |t.name| + 2);
      if st.level == 1 then
        var body := if s > m.to then Some(Slice(p, m.to + 1, s)) else None;
        st'.(mode := Next, level := 0, text := e + 1,
             blocks := Emit(st.blocks, Script, TagCall(c, m.tag, p[m.from..m.to], body)))
      else st'.(level := st.level - 1)
    else st.(adp := s + 1)
  }

  /** One turn of the loop: nothing means that the loop is left. */
  function Step(c: Config, p: string, st: State): (r: Option<State>)
    requires Fits(p, st)
    ensures r.Some? ==> Fits(p, r.value)
    ensures r.Some? ==> r.value.adp > st.adp || (r.value.adp == st.adp && st.mode.Next? && r.value.mode.Inline?)
  {
    var s := Find(p, st.adp, '<');
    if s == |p| then None
    else
      match st.mode
      case Inline => StepInline(c, p, st, s)
      case Next => StepNext(c, p, st, s)
      case InScript(_, _) =>
        var e := Find(p, s, '>');
        if e == |p| then None else Some(StepScript(c, p, st, s, e))
      case InTag(_, _, _) =>
        var e := Find(p, s, '>');
        if e == |p| then None else Some(StepInTag(c, p, st, s, e))
  }

  /**
   * The loop.  Each turn moves the search position forward, or leaves it and goes from
   * looking for a tag to reading inline code; it never passes the end of the page.
   */
  function Scan(c: Config, p: string, st: State): (r: State)
    requires Fits(p, st)
    decreases |p| - st.adp, if st.mode.Next? then 1 else 0
  {
    var next := Step(c, p, st);
    if next.None? then st else Scan(c, p, next.value)
  }

  const START := State(Next, 0, 0, 0, false, [])

  /** The blocks of a page: those of the loop and the text that is left. */
  function Blocks(c: Config, p: string): seq<Block> {
    var st := Scan(c, p, START);
    AddText(p, st, |p|)
  }
}
