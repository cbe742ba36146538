/** AdpParseAdp of nsd/adpparse.c as the loop it is, over buffers updated in place. */
module AdpParser {
  import opened Prelude
  import opened Chars
  import opened AdpText
  import opened AdpCode
  import opened AdpScan

  /** GetTag, with its three loops. */
  method ReadTag(p: string, s: nat, e: nat) returns (t: TagText)
    requires s < e <= |p|
    ensures t == GetTag(p, s, e)
  {
    var a := s + 1;
    while a < e && IsSpace(p[a])
      invariant s + 1 <= a <= e && SkipSpaceTo(p, a, e) == SkipSpaceTo(p, s + 1, e)
    {
      a := a + 1;
    }
    var b := a;
    while b < e && !IsSpace(p[b]) && p[b] != '<'
      invariant a <= b <= e && NameEnd(p, b, e) == NameEnd(p, a, e)
    {
      b := b + 1;
    }
    var d := b;
    while d < e && IsSpace(p[d])
      invariant b <= d <= e && SkipSpaceTo(p, d, e) == SkipSpaceTo(p, b, e)
    {
      d := d + 1;
    }
    t := TagText(Lower(p[a..b]), d);
  }

  class Scanner {
    const c: Config
    const page: string
    const parse: Parse
    var mode: Mode
    var level: int
    var adp: nat
    var text: nat
    var streamDone: bool

    constructor (c: Config, page: string, single: bool)
      ensures Valid() && View() == START && fresh(parse) && parse.single == single && parse.quote == c.quote
      ensures this.c == c && this.page == page
    {
      this.c, this.page := c, page;
      parse := new Parse(single, c.quote);
      mode, level, adp, text, streamDone := Next, 0, 0, 0, false;
    }

    ghost function View(): State
      reads this, parse
    {
      State(mode, level, adp, text, streamDone, parse.blocks)
    }

    ghost predicate Valid()
      reads this, parse
    {
      parse.Valid() && Fits(page, View())
    }

    /** Case TagInlineCode; the answer says whether the loop goes on. */
    method InlineCode(s: nat) returns (more: bool)
      requires Valid() && adp <= s && Begins(page, s)
      modifies this, parse
      ensures Valid() && StepInline(c, page, old(View()), s) == if more then Some(View()) else None
      ensures !more ==> View() == old(View())
    {
      hide Parse.Valid, Close, Find2, Find, Emit;
      var e := Strstr(page, s, '%', '>');
      more := e < |page|;
      if more {
        e := FindClose(page, s);
        if e == |page| {
          parse.AppendBlock(Text, Slice(page, text, s + 2));
          text := s + 2;
        } else {
          parse.AppendBlock(Text, Slice(page, text, s));
          if !c.safe {
            if s + 2 < |page| && page[s + 2] == '=' {
              parse.AppendBlock(Value, Slice(page, s + 3, e));
            } else {
              parse.AppendBlock(Script, Slice(page, s + 2, e));
            }
          }
          text := e + 2;
        }
        mode := Next;
        adp := text;
      }
    }

    /** Case TagNext once the end of the start tag is known. */
    method StartTag(s: nat, e: nat)
      requires Valid() && s < e < |page|
      modifies this, parse
      ensures Valid() && View() == StepTag(c, page, old(View()), s, e)
    {
      hide Parse.Valid, GetTag, Emit, Find, TagCall;
      var t := ReadTag(page, s, e);
      mode := Next;
      if IsServerScript(c, page, t, e) {
        parse.AppendBlock(Text, Slice(page, text, s));
        mode := InScript(e + 1, c.streams(page[t.atts..e]));
        level := 1;
      } else {
        var found := Lookup(c, t.name);
        if found.Some? {
          parse.AppendBlock(Text, Slice(page, text, s));
          if found.value.endtag.None? {
            parse.AppendBlock(Script, TagCall(c, found.value, page[t.atts..e], None));
            text := e + 1;
          } else {
            mode := InTag(found.value, t.atts, e);
            level := 1;
          }
        }
      }
      adp := s + |t.name| + 1;
    }

    /** Case TagNext. */
    method NextTag(s: nat) returns (more: bool)
      requires Valid() && adp <= s < |page| && s == Find(page, adp, '<')
      modifies this, parse
      ensures Valid() && StepNext(c, page, old(View()), s) == if more then Some(View()) else None
      ensures !more ==> View() == old(View())
    {
      hide Parse.Valid, StepTag, TagEnd;
      more := true;
      if s + 1 < |page| && page[s + 1] == '%' && !(s + 2 < |page| && page[s + 2] == '>') {
        mode := Inline;
      } else if s + 1 == |page| || !FirstChar(page[s + 1]) {
        mode, adp := Next, s + 1;
      } else {
        var e := ParseTagEnd(page, s);
        if e == |page| {
          more := false;
        } else {
          StartTag(s, e);
        }
      }
    }

    /** Case TagScript. */
    method ScriptTag(s: nat, e: nat)
      requires Valid() && mode.InScript? && s < e < |page|
      modifies this, parse
      ensures Valid() && View() == StepScript(c, page, old(View()), s, e)
    {
      hide Parse.Valid, GetTag, Emit, Find;
      var t := ReadTag(page, s, e);
      adp := s + |t.name| + 1;
      if t.name == "script" {
        level := level + 1;
      } else if t.name == "/script" {
        level := level - 1;
        if level == 0 {
          if !c.safe {
            if mode.stream && !streamDone {
              parse.AppendBlock(Script, STREAM);
              streamDone := true;
            }
            parse.AppendBlock(Script, Slice(page, mode.start, s));
          }
          text := e + 1;
          mode := Next;
        }
      }
    }

    /** Case TagReg. */
    method RegisteredTag(s: nat, e: nat)
      requires Valid() && mode.InTag? && s < e < |page|
      modifies this, parse
      ensures Valid() && View() == StepInTag(c, page, old(View()), s, e)
    {
      hide Parse.Valid, GetTag, Emit, Find, TagCall;
      var t := ReadTag(page, s, e);
      var m := mode;
      if t.name == m.tag.name {
        level := level + 1;
        adp := s + |t.name| + 1;
      } else if Some(t.name) == m.tag.endtag {
        level := level - 1;
        if level == 0 {
          var body := if s > m.to then Some(Slice(page, m.to + 1, s)) else None;
          parse.AppendBlock(Script, TagCall(c, m.tag, page[m.from..m.to], body));
          text := e + 1;
          mode := Next;
        }
        adp := s + |t.name| + 2;
      } else {
        adp := s + 1;
      }
    }

    /** One turn of the loop. */
    method Turn() returns (more: bool)
      requires Valid()
      modifies this, parse
      ensures Valid() && Step(c, page, old(View())) == if more then Some(View()) else None
      ensures !more ==> View() == old(View())
    {
      hide Parse.Valid, StepInline, StepNext, StepScript, StepInTag, Find;
      more := true;
      var s := Strchr(page, adp, '<');
      if s == |page| {
        return false;
      }
      match mode {
        case Inline =>
          more := InlineCode(s);
        case Next =>
          more := NextTag(s);
        case InScript(_, _) =>
          var e := Strchr(page, s, '>');
          if e == |page| {
            return false;
          }
          ScriptTag(s, e);
        case InTag(_, _, _) =>
          var e := Strchr(page, s, '>');
          if e == |page| {
            return false;
          }
          RegisteredTag(s, e);
      }
    }
  }

  /**
   * AdpParseAdp: the compiled form of a page, as a table of blocks or as a single script.
   * The loop ends on every page: the search position moves on, or stays while the state goes
   * from looking for a tag to reading inline code.
   */
  method ParseAdp(c: Config, page: string, single: bool) returns (code: Code)
    ensures code == if single then Single(c.quote, Blocks(c, page)) else Compiled(Blocks(c, page))
    ensures NonEmpty(Blocks(c, page))
  {
    hide Parse.Valid, Step, Compiled, Single;
    var z := new Scanner(c, page, single);
    var more := true;
    while more
      invariant fresh(z) && fresh(z.parse) && z.Valid() && z.c == c && z.page == page
      invariant z.parse.single == single && z.parse.quote == c.quote
      invariant more ==> Scan(c, page, z.View()) == Scan(c, page, START)
      invariant !more ==> z.View() == Scan(c, page, START)
      decreases more, |page| - z.adp, if z.mode.Next? then 1 else 0
    {
      more := z.Turn();
    }
    z.parse.AppendBlock(Text, Slice(page, z.text, |page|));
    AllNonEmpty(z.parse);
    code := z.parse.Finish();
  }

  lemma AllNonEmpty(parse: Parse)
    requires parse.Valid()
    ensures NonEmpty(parse.blocks)
  {
  }
}
