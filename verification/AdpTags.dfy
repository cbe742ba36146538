/**
 * Which end tag closes a server-side script or a registered tag in AdpParseAdp of
 * nsd/adpparse.c: the first one at which the tags that open and the tags that close balance.
 */
module AdpTags {
  import opened Prelude
  import opened Chars
  import opened AdpText
  import opened AdpCode
  import opened AdpScan

  /** A tag: its "<", the next ">", and its name. */
  datatype Seen = Seen(at: nat, end: nat, name: string)

  /**
   * All tags of the page from `i` on.  Inside a registered tag the scanner steps over one
   * more character after the name `skip` of the end tag.
   */
  function Tags(p: string, i: nat, skip: Option<string>): seq<Seen>
    requires i <= |p|
    decreases |p| - i
  {
    var s := Find(p, i, '<');
    if s == |p| then []
    else
      var e := Find(p, s, '>');
      if e == |p| then []
      else
        var name := GetTag(p, s, e).name;
        [Seen(s, e, name)] + Tags(p, if Some(name) == skip then s + |name| + 2 else s + 1, skip)
  }

  /** What a tag does to the nesting. */
  function Change(t: Seen, open: string, close: string): int {
    if t.name == open then 1 else if t.name == close then -1 else 0
  }

  /** How many more tags of the first `n` open than close. */
  function Balance(ts: seq<Seen>, n: nat, open: string, close: string): int
    requires n <= |ts|
  {
    if n == 0 then 0 else Change(ts[0], open, close) + Balance(ts[1..], n - 1, open, close)
  }

  /** With `level` tags open, tag `n` is the first one after which none is open. */
  ghost predicate ClosesAt(ts: seq<Seen>, n: nat, level: int, open: string, close: string) {
    && n < |ts| && level + Balance(ts, n + 1, open, close) == 0
    && forall m :: 0 < m <= n ==> level + Balance(ts, m, open, close) != 0
  }

  // ----- facts about the list of tags

  /** Text without a "<" makes no difference. */
  lemma FindSkips(p: string, a: nat, b: nat)
    requires a <= b <= |p| && forall j :: a <= j < b ==> p[j] != '<'
    ensures Find(p, a, '<') == Find(p, b, '<')
  {
  }

  lemma TagsSkip(p: string, a: nat, b: nat, skip: Option<string>)
    requires a <= b <= |p| && forall j :: a <= j < b ==> p[j] != '<'
    ensures Tags(p, a, skip) == Tags(p, b, skip)
  {
    hide GetTag;
    FindSkips(p, a, b);
  }

  /** There is no "<" in the name of a tag, nor between its "<" and its name. */
  lemma NameHasNoTag(p: string, s: nat, e: nat)
    requires s < e <= |p|
    ensures var name := GetTag(p, s, e).name;
            s + 1 + |name| <= e && forall j :: s < j < s + 1 + |name| ==> p[j] != '<'
  {
    var a := SkipSpaceTo(p, s + 1, e);
    SpacesTo(p, s + 1, e);
    assert forall j :: s < j < a ==> p[j] != '<';
  }

  lemma {:induction false} SpacesTo(p: string, i: nat, e: nat)
    requires i <= e <= |p|
    ensures forall j :: i <= j < SkipSpaceTo(p, i, e) ==> IsSpace(p[j])
    decreases e - i
  {
    if i < e && IsSpace(p[i]) {
      SpacesTo(p, i + 1, e);
    }
  }

  /** Where the search goes on after the tag at `s`. */
  function After(s: nat, name: string, skip: Option<string>): nat {
    if Some(name) == skip then s + |name| + 2 else s + |name| + 1
  }

  lemma TagsHead(p: string, i: nat, skip: Option<string>)
    requires i <= |p|
    ensures var s := Find(p, i, '<');
            if s == |p| || Find(p, s, '>') == |p| then Tags(p, i, skip) == []
            else
              var e := Find(p, s, '>');
              var name := GetTag(p, s, e).name;
              var next := if Some(name) == skip then s + |name| + 2 else s + 1;
              s + |name| + 1 <= e && Tags(p, i, skip) == [Seen(s, e, name)] + Tags(p, next, skip)
  {
    hide GetTag, Find;
  }

  lemma {:induction false} TagsBound(p: string, i: nat, skip: Option<string>)
    requires i <= |p|
    ensures forall n :: 0 <= n < |Tags(p, i, skip)| ==> i <= Tags(p, i, skip)[n].at
    decreases |p| - i
  {
    hide GetTag, Find, Tags;
    TagsHead(p, i, skip);
    var s := Find(p, i, '<');
    if s < |p| && Find(p, s, '>') < |p| {
      var e := Find(p, s, '>');
      var name := GetTag(p, s, e).name;
      TagsBound(p, if Some(name) == skip then s + |name| + 2 else s + 1, skip);
    }
  }

  lemma TagsStep(p: string, i: nat, skip: Option<string>)
    requires i <= |p|
    ensures var s := Find(p, i, '<');
            if s == |p| || Find(p, s, '>') == |p| then Tags(p, i, skip) == []
            else
              var e := Find(p, s, '>');
              var name := GetTag(p, s, e).name;
              s + |name| + 1 <= e && Tags(p, i, skip) == [Seen(s, e, name)] + Tags(p, After(s, name, skip), skip)
  {
    hide GetTag, Find, Tags;
    TagsHead(p, i, skip);
    var s := Find(p, i, '<');
    if s < |p| && Find(p, s, '>') < |p| {
      var e := Find(p, s, '>');
      var name := GetTag(p, s, e).name;
      NameHasNoTag(p, s, e);
      if Some(name) != skip {
        TagsSkip(p, s + 1, s + |name| + 1, skip);
      }
    }
  }

  /** The list holds exactly the "<" that have a ">" after them. */
  lemma {:induction false} TagsAreAll(p: string, i: nat, j: nat)
    requires i <= j <= |p|
    ensures (At(p, j, '<') && Find(p, j, '>') < |p|) <==> exists n :: 0 <= n < |Tags(p, i, None)| && Tags(p, i, None)[n].at == j
    decreases |p| - i
  {
    hide GetTag, Find, Tags;
    var ts := Tags(p, i, None);
    var s := Find(p, i, '<');
    TagsHead(p, i, None);
    if s == |p| || Find(p, s, '>') == |p| {
      if At(p, j, '<') {
        assert s <= j;
        NoneLater(p, s, j);
      }
    } else {
      var rest := Tags(p, s + 1, None);
      assert ts[0].at == s && ts[1..] == rest;
      TagsBound(p, s + 1, None);
      if j <= s {
        assert j < s ==> !At(p, j, '<');
        assert forall n :: 0 < n < |ts| ==> ts[n].at == rest[n - 1].at > s;
      } else {
        TagsAreAll(p, s + 1, j);
        if n :| 0 <= n < |rest| && rest[n].at == j {
          assert ts[n + 1].at == j;
        }
        if n :| 0 <= n < |ts| && ts[n].at == j {
          assert rest[n - 1].at == j;
        }
      }
    }
  }

  lemma NoneLater(p: string, s: nat, j: nat)
    requires s <= j <= |p| && Find(p, s, '>') == |p|
    ensures Find(p, j, '>') == |p|
  {
  }

  /** The closing tag, found with a counter. */
  function Closing(ts: seq<Seen>, level: int, open: string, close: string): Option<Seen> {
    if ts == [] then None
    else
      var level' := level + Change(ts[0], open, close);
      if level' == 0 then Some(ts[0]) else Closing(ts[1..], level', open, close)
  }

  /** The counter finds the first tag at which opening and closing tags balance, if there is one. */
  lemma {:induction false} ClosingIsFirst(ts: seq<Seen>, level: int, open: string, close: string)
    ensures match Closing(ts, level, open, close)
            case Some(t) => exists n: nat :: ClosesAt(ts, n, level, open, close) && ts[n] == t
            case None => forall n: nat :: !ClosesAt(ts, n, level, open, close)
  {
    hide Change;
    if ts != [] {
      var level' := level + Change(ts[0], open, close);
      assert Balance(ts[1..], 0, open, close) == 0;
      assert Balance(ts, 1, open, close) == Change(ts[0], open, close);
      if level' == 0 {
        assert ClosesAt(ts, 0, level, open, close);
      } else {
        ClosingIsFirst(ts[1..], level', open, close);
        if n: nat :| ClosesAt(ts[1..], n, level', open, close) && Some(ts[1..][n]) == Closing(ts, level, open, close) {
          ClosesStep(ts, n, level, open, close);
        } else {
          forall n: nat ensures !ClosesAt(ts, n, level, open, close) {
            if n > 0 {
              ClosesStep(ts, n - 1, level, open, close);
            }
          }
        }
      }
    }
  }

  lemma ClosesStep(ts: seq<Seen>, n: nat, level: int, open: string, close: string)
    requires ts != [] && level + Change(ts[0], open, close) != 0
    ensures ClosesAt(ts, n + 1, level, open, close) <==> ClosesAt(ts[1..], n, level + Change(ts[0], open, close), open, close)
  {
    hide Change;
    var level', rest := level + Change(ts[0], open, close), ts[1..];
    forall m | 0 < m <= |ts| ensures Balance(ts, m, open, close) == Change(ts[0], open, close) + Balance(rest, m - 1, open, close) {
    }
    assert Balance(rest, 0, open, close) == 0;
    if ClosesAt(ts, n + 1, level, open, close) {
      forall m | 0 < m <= n ensures level' + Balance(rest, m, open, close) != 0 {
        assert level + Balance(ts, m + 1, open, close) != 0;
      }
    }
  }

  // ----- server-side scripts

  /** The state after the end tag `t` of a script: the script is what lies between its tags. */
  function ScriptClosed(c: Config, p: string, st: State, t: Seen): State
    requires st.mode.InScript?
  {
    var start := st.mode.stream && !st.streamDone && !c.safe;
    var bs := if start then Emit(st.blocks, Script, STREAM) else st.blocks;
    State(Next, 0, t.at + |t.name| + 1, t.end + 1, st.streamDone || start,
          if c.safe then st.blocks else Emit(bs, Script, Slice(p, st.mode.start, t.at)))
  }

  lemma ScriptTurn(c: Config, p: string, st: State, s: nat, e: nat)
    requires Fits(p, st) && st.mode.InScript? && s < e < |p|
    ensures var t := Seen(s, e, GetTag(p, s, e).name);
            var level := st.level + Change(t, "script", "/script");
            StepScript(c, p, st, s, e) ==
              if level == 0 then ScriptClosed(c, p, st, t) else st.(level := level, adp := After(s, t.name, None))
  {
    hide Emit, GetTag, Slice;
  }

  /**
   * A server-side script ends at the tag that the counter finds, and the scanner goes on
   * behind it; if there is none, nothing more is appended.
   */
  lemma {:induction false} ScriptScan(c: Config, p: string, st: State)
    requires Fits(p, st) && st.mode.InScript?
    ensures match Closing(Tags(p, st.adp, None), st.level, "script", "/script")
            case Some(t) =>
              Fits(p, ScriptClosed(c, p, st, t)) && Scan(c, p, st) == Scan(c, p, ScriptClosed(c, p, st, t))
            case None =>
              var r := Scan(c, p, st); r.blocks == st.blocks && r.text == st.text && r.mode == st.mode
    decreases |p| - st.adp
  {
    hide Find, GetTag, Tags, StepScript, Scan, Emit, Slice, Change;
    var ts := Tags(p, st.adp, None);
    TagsStep(p, st.adp, None);
    ScanTurn(c, p, st);
    var s := Find(p, st.adp, '<');
    if s < |p| && Find(p, s, '>') < |p| {
      var e := Find(p, s, '>');
      var t := Seen(s, e, GetTag(p, s, e).name);
      var level := st.level + Change(t, "script", "/script");
      ScriptTurn(c, p, st, s, e);
      assert ts[0] == t && ts[1..] == Tags(p, After(s, t.name, None), None);
      if level != 0 {
        ChangeBounds(t, "script", "/script");
        ScriptScan(c, p, st.(level := level, adp := After(s, t.name, None)));
      }
    }
  }

  /** A server-side script ends at the first tag at which opening and closing script tags balance. */
  lemma ScriptEnds(c: Config, p: string, st: State)
    requires Fits(p, st) && st.mode.InScript?
    ensures var ts := Tags(p, st.adp, None);
            && (forall n: nat :: ClosesAt(ts, n, st.level, "script", "/script") ==>
                  && Fits(p, ScriptClosed(c, p, st, ts[n]))
                  && Scan(c, p, st) == Scan(c, p, ScriptClosed(c, p, st, ts[n])))
            && ((forall n: nat :: !ClosesAt(ts, n, st.level, "script", "/script")) ==>
                  var r := Scan(c, p, st); r.blocks == st.blocks && r.text == st.text && r.mode == st.mode)
  {
    hide Tags, Scan, ScriptClosed, Closing, ClosesAt;
    ScriptScan(c, p, st);
    var ts := Tags(p, st.adp, None);
    ClosingIsFirst(ts, st.level, "script", "/script");
    forall n: nat, m: nat | ClosesAt(ts, n, st.level, "script", "/script") && ClosesAt(ts, m, st.level, "script", "/script")
      ensures n == m
    {
      ClosesOnce(ts, n, m, st.level, "script", "/script");
    }
  }

  lemma ClosesOnce(ts: seq<Seen>, n: nat, m: nat, level: int, open: string, close: string)
    requires ClosesAt(ts, n, level, open, close) && ClosesAt(ts, m, level, open, close)
    ensures n == m
  {
  }

  lemma ScanTurn(c: Config, p: string, st: State)
    requires Fits(p, st)
    ensures Scan(c, p, st) == match Step(c, p, st) case None => st case Some(next) => Scan(c, p, next)
  {
    hide Step;
  }

  lemma ChangeBounds(t: Seen, open: string, close: string)
    ensures -1 <= Change(t, open, close) <= 1
  {
  }

  // ----- registered tags

  /** The state after the end tag `t` of a registered tag: its content is what lies between its tags. */
  function TagClosed(c: Config, p: string, st: State, t: Seen): State
    requires st.mode.InTag? && st.mode.from <= st.mode.to < |p|
  {
    var m := st.mode;
    var body := if t.at > m.to then Some(Slice(p, m.to + 1, t.at)) else None;
    st.(mode := Next, level := 0, adp := t.at + |t.name| + 2, text := t.end + 1,
        blocks := Emit(st.blocks, Script, TagCall(c, m.tag, p[m.from..m.to], body)))
  }

  lemma TagTurn(c: Config, p: string, st: State, s: nat, e: nat)
    requires Fits(p, st) && st.mode.InTag? && s < e < |p|
    ensures var t := Seen(s, e, GetTag(p, s, e).name);
            var open, close := st.mode.tag.name, st.mode.tag.endtag.value;
            var level := st.level + Change(t, open, close);
            var st' := StepInTag(c, p, st, s, e);
            if level == 0 then st' == TagClosed(c, p, st, t)
            else st' == st.(level := level, adp := st'.adp)
                 && st'.adp == (if t.name == open then s + |t.name| + 1 else if t.name == close then s + |t.name| + 2 else s + 1)
  {
    hide Emit, GetTag, Slice, TagCall;
  }

  /** Where the search goes on behind a tag inside a registered tag, the same tags follow. */
  lemma SameTags(p: string, s: nat, e: nat, open: string, close: string, adp: nat)
    requires s < e < |p|
    requires var name := GetTag(p, s, e).name;
             adp == if name == open then s + |name| + 1 else if name == close then s + |name| + 2 else s + 1
    ensures var name := GetTag(p, s, e).name;
            After(s, name, Skip(open, close)) <= |p| && adp <= |p|
            && Tags(p, adp, Skip(open, close)) == Tags(p, After(s, name, Skip(open, close)), Skip(open, close))
  {
    hide GetTag, Tags;
    var name := GetTag(p, s, e).name;
    NameHasNoTag(p, s, e);
    if adp != After(s, name, Skip(open, close)) {
      TagsSkip(p, adp, After(s, name, Skip(open, close)), Skip(open, close));
    }
  }

  /** The end tag after whose name a character is stepped over; a tag that is its own end tag only opens. */
  function Skip(open: string, close: string): Option<string> {
    if open == close then None else Some(close)
  }

  /** The same for a registered tag. */
  lemma {:induction false} TagScan(c: Config, p: string, st: State)
    requires Fits(p, st) && st.mode.InTag?
    ensures var open, close := st.mode.tag.name, st.mode.tag.endtag.value;
            match Closing(Tags(p, st.adp, Skip(open, close)), st.level, open, close)
            case Some(t) => Fits(p, TagClosed(c, p, st, t)) && Scan(c, p, st) == Scan(c, p, TagClosed(c, p, st, t))
            case None =>
              var r := Scan(c, p, st); r.blocks == st.blocks && r.text == st.text && r.mode == st.mode
    decreases |p| - st.adp
  {
    hide Find, GetTag, Tags, StepInTag, Scan, Emit, Slice, Change, TagCall;
    var open, close := st.mode.tag.name, st.mode.tag.endtag.value;
    var skip := Skip(open, close);
    var ts := Tags(p, st.adp, skip);
    TagsStep(p, st.adp, skip);
    ScanTurn(c, p, st);
    var s := Find(p, st.adp, '<');
    if s < |p| && Find(p, s, '>') < |p| {
      var e := Find(p, s, '>');
      var t := Seen(s, e, GetTag(p, s, e).name);
      var level := st.level + Change(t, open, close);
      TagTurn(c, p, st, s, e);
      assert ts[0] == t && ts[1..] == Tags(p, After(s, t.name, skip), skip);
      if level != 0 {
        var st' := StepInTag(c, p, st, s, e);
        ChangeBounds(t, open, close);
        SameTags(p, s, e, open, close, st'.adp);
        TagScan(c, p, st');
      }
    }
  }

  /** A registered tag ends at the first tag at which its opening and its end tags balance. */
  lemma RegisteredTagEnds(c: Config, p: string, st: State)
    requires Fits(p, st) && st.mode.InTag?
    ensures var open, close := st.mode.tag.name, st.mode.tag.endtag.value;
            var ts := Tags(p, st.adp, Skip(open, close));
            && (forall n: nat :: ClosesAt(ts, n, st.level, open, close) ==>
                  Fits(p, TagClosed(c, p, st, ts[n])) && Scan(c, p, st) == Scan(c, p, TagClosed(c, p, st, ts[n])))
            && ((forall n: nat :: !ClosesAt(ts, n, st.level, open, close)) ==>
                  var r := Scan(c, p, st); r.blocks == st.blocks && r.text == st.text && r.mode == st.mode)
  {
    hide Tags, Scan, TagClosed, Closing, ClosesAt;
    TagScan(c, p, st);
    var open, close := st.mode.tag.name, st.mode.tag.endtag.value;
    var ts := Tags(p, st.adp, Skip(open, close));
    ClosingIsFirst(ts, st.level, open, close);
    forall n: nat, m: nat | ClosesAt(ts, n, st.level, open, close) && ClosesAt(ts, m, st.level, open, close)
      ensures n == m
    {
      ClosesOnce(ts, n, m, st.level, open, close);
    }
  }
}
