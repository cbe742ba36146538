/** What the calls of registered tags in nsd/adpparse.c say, word by word. */
module AdpCalls {
  import opened Prelude
  import opened AdpCode
  import opened AdpScan
  import opened AdpPrint
  import opened AdpRoundTrip

  // ----- lists

  /** Appending words to a text, one after the other. */
  function AppendWords(quote: string -> string, text: string, ws: seq<string>): string
    decreases |ws|
  {
    if ws == [] then text else AppendWords(quote, AppendElement(quote, text, ws[0]), ws[1..])
  }

  /** A list of words. */
  function ListOf(quote: string -> string, ws: seq<string>): string {
    AppendWords(quote, "", ws)
  }

  /**
   * What is assumed of Tcl lists: no word is quoted as nothing, reading a list that was made
   * by appending words gives back the words, and a blank before a list does not matter.
   */
  ghost predicate ListRules(quote: string -> string, read: string -> seq<string>) {
    && (forall w :: quote(w) != "")
    && (forall ws :: read(ListOf(quote, ws)) == ws)
    && (forall s :: read(" " + s) == read(s))
  }

  /** The blank before an element, which only depends on the end of the text. */
  function Sep(text: string): string {
    if text == "" || text[|text| - 1] in " \t\n{" then "" else " "
  }

  lemma ElementIs(quote: string -> string, text: string, w: string)
    ensures AppendElement(quote, text, w) == text + (Sep(text) + quote(w))
  {
    assert "" + quote(w) == quote(w);
  }

  lemma SepBehind(a: string, x: string)
    requires x != ""
    ensures Sep(a + x) == Sep(x)
  {
  }

  lemma Joins(a: string, b: string, d: string)
    ensures a + (b + d) == (a + b) + d
  {
  }

  /** Only the end of a text matters for what is appended to it. */
  lemma {:induction false} AppendBehind(quote: string -> string, a: string, x: string, ws: seq<string>)
    requires x != ""
    ensures AppendWords(quote, a + x, ws) == a + AppendWords(quote, x, ws)
    decreases |ws|
  {
    hide AppendElement, Sep;
    if ws != [] {
      var e := Sep(x) + quote(ws[0]);
      ElementIs(quote, x, ws[0]);
      ElementIs(quote, a + x, ws[0]);
      SepBehind(a, x);
      Joins(a, x, e);
      AppendBehind(quote, a, x + e, ws[1..]);
    }
  }

  /** What is appended to a text reads as the list of the words. */
  lemma AppendedReads(quote: string -> string, read: string -> seq<string>, a: string, ws: seq<string>)
    returns (list: string)
    requires ListRules(quote, read) && ws != []
    ensures AppendWords(quote, a, ws) == a + list && read(list) == ws
  {
    hide AppendElement, ListOf;
    var w := quote(ws[0]);
    var l := ListOf(quote, ws);
    ListStart(quote, ws);
    ElementIs(quote, a, ws[0]);
    Joins(a, Sep(a), w);
    AppendBehind(quote, a + Sep(a), w, ws[1..]);
    list := Sep(a) + l;
    Joins(a, Sep(a), l);
    assert "" + l == l;
  }

  lemma ListStart(quote: string -> string, ws: seq<string>)
    requires ws != []
    ensures ListOf(quote, ws) == AppendWords(quote, quote(ws[0]), ws[1..])
  {
    hide AppendElement;
    ElementIs(quote, "", ws[0]);
    assert "" + ("" + quote(ws[0])) == quote(ws[0]);
  }

  lemma {:induction false} AppendTwice(quote: string -> string, text: string, a: seq<string>, b: seq<string>)
    ensures AppendWords(quote, AppendWords(quote, text, a), b) == AppendWords(quote, text, a + b)
    decreases |a|
  {
    if a == [] {
      assert a + b == b;
    } else {
      assert (a + b)[1..] == a[1..] + b;
      AppendTwice(quote, AppendElement(quote, text, a[0]), a[1..], b);
    }
  }

  // ----- the call of a tag

  /** The values of attributes. */
  function Values(atts: seq<(string, string)>): seq<string> {
    if atts == [] then [] else [atts[0].1] + Values(atts[1..])
  }

  /** Names and values of attributes in turn. */
  function NamesAndValues(atts: seq<(string, string)>): seq<string> {
    if atts == [] then [] else [atts[0].0, atts[0].1] + NamesAndValues(atts[1..])
  }

  /**
   * The words of the call: what the tag was registered with, for a procedure the values of
   * the attributes, and the text between the tags.
   */
  function Arguments(c: Config, t: Tag, atts: string, body: Option<string>): seq<string> {
    [t.content]
    + (if t.kind == TagProc then Values(c.attributes(atts)) else [])
    + (if body.Some? then [body.value] else [])
  }

  /**
   * `text` is the call of the tag: the result of a command with these arguments is appended
   * to the output; an ADP tag is parsed; all but procedures get a set with the tag's name
   * and attributes.
   */
  ghost predicate IsCall(c: Config, read: string -> seq<string>, t: Tag, atts: string, body: Option<string>, text: string) {
    exists args, pairs ::
      && text == "ns_adp_append [" + (if t.kind == TagAdp then "ns_adp_parse -- " else "") + args
                 + (if t.kind == TagProc then "" else " [ns_set create" + pairs + "]") + "]"
      && read(args) == Arguments(c, t, atts, body)
      && (t.kind != TagProc ==> read(pairs) == [t.name] + NamesAndValues(c.attributes(atts)))
  }

  lemma {:induction false} AppendAllIs(c: Config, text: string, atts: seq<(string, string)>, names: bool)
    ensures AppendAll(c, text, atts, names) == AppendWords(c.quote, text, if names then NamesAndValues(atts) else Values(atts))
    decreases |atts|
  {
    hide AppendElement;
    if atts != [] {
      var t := if names then AppendElement(c.quote, text, atts[0].0) else text;
      AppendAllIs(c, AppendElement(c.quote, t, atts[0].1), atts[1..], names);
      if names {
        var ws := NamesAndValues(atts);
        assert ws[0] == atts[0].0 && ws[1..][0] == atts[0].1 && ws[1..][1..] == NamesAndValues(atts[1..]);
      } else {
        assert Values(atts)[1..] == Values(atts[1..]);
      }
    }
  }

  lemma AppendOne(quote: string -> string, text: string, w: string)
    ensures AppendWords(quote, text, [w]) == AppendElement(quote, text, w)
  {
    hide AppendElement;
    assert [w][1..] == [];
  }

  /** The part of a call before the set of the attributes. */
  function Front(c: Config, t: Tag, atts: string, body: Option<string>): string {
    AppendWords(c.quote, "ns_adp_append [" + (if t.kind == TagAdp then "ns_adp_parse -- " else ""), Arguments(c, t, atts, body))
  }

  lemma CallIs(c: Config, t: Tag, atts: string, body: Option<string>)
    ensures var f := Front(c, t, atts, body);
            TagCall(c, t, atts, body) ==
              if t.kind == TagProc then f + "]"
              else AppendWords(c.quote, f + " [ns_set create", [t.name] + NamesAndValues(c.attributes(atts))) + "]" + "]"
  {
    hide AppendElement, AppendAll, AppendWords;
    var s1 := "ns_adp_append [" + (if t.kind == TagAdp then "ns_adp_parse -- " else "");
    assert "ns_adp_append [" + "" == "ns_adp_append [";
    var ws1 := [t.content];
    AppendOne(c.quote, s1, t.content);
    var s2 := AppendElement(c.quote, s1, t.content);
    var ws2 := if t.kind == TagProc then Values(c.attributes(atts)) else [];
    AppendAllIs(c, s2, c.attributes(atts), false);
    AppendTwice(c.quote, s1, ws1, ws2);
    AppendNone(c.quote, s2);
    var s3 := AppendWords(c.quote, s1, ws1 + ws2);
    var ws3 := if body.Some? then [body.value] else [];
    AppendTwice(c.quote, s1, ws1 + ws2, ws3);
    AppendNone(c.quote, s3);
    if body.Some? {
      AppendOne(c.quote, s3, body.value);
    }
    var f := Front(c, t, atts, body);
    AppendOne(c.quote, f + " [ns_set create", t.name);
    var s5 := AppendElement(c.quote, f + " [ns_set create", t.name);
    AppendAllIs(c, s5, c.attributes(atts), true);
    AppendTwice(c.quote, f + " [ns_set create", [t.name], NamesAndValues(c.attributes(atts)));
  }

  lemma AppendNone(quote: string -> string, text: string)
    ensures AppendWords(quote, text, []) == text
  {
  }

  /** The script that a registered tag stands for is its call, with all its words. */
  lemma TagCallReads(c: Config, read: string -> seq<string>, t: Tag, atts: string, body: Option<string>)
    requires ListRules(c.quote, read)
    ensures IsCall(c, read, t, atts, body, TagCall(c, t, atts, body))
  {
    hide AppendWords, TagCall, ListOf, Arguments;
    CallIs(c, t, atts, body);
    var head := "ns_adp_append [" + (if t.kind == TagAdp then "ns_adp_parse -- " else "");
    ArgumentsNonEmpty(c, t, atts, body);
    var args := AppendedReads(c.quote, read, head, Arguments(c, t, atts, body));
    var f := head + args;
    if t.kind == TagProc {
      assert TagCall(c, t, atts, body) == head + args + "" + "]";
      assert IsCall(c, read, t, atts, body, TagCall(c, t, atts, body)) by {
        var pairs := "";
      }
    } else {
      var words := [t.name] + NamesAndValues(c.attributes(atts));
      var pairs := AppendedReads(c.quote, read, f + " [ns_set create", words);
      assert TagCall(c, t, atts, body) == (f + " [ns_set create") + pairs + "]" + "]";
      assert TagCall(c, t, atts, body) == head + args + (" [ns_set create" + pairs + "]") + "]";
    }
  }

  lemma ArgumentsNonEmpty(c: Config, t: Tag, atts: string, body: Option<string>)
    ensures Arguments(c, t, atts, body) != []
  {
  }

  // ----- the round trip, without naming the calls

  /** The blocks are those of the document: registered tags are calls with the right words. */
  ghost predicate Stands(c: Config, read: string -> seq<string>, doc: seq<Item>, done: bool, bs: seq<Block>)
    decreases |doc|
  {
    if doc == [] then bs == []
    else
      var n := |BlocksOf(c, doc[0], done)|;
      && n <= |bs| && StandsFor(c, read, doc[0], done, bs[..n])
      && Stands(c, read, doc[1..], Streaming(c, doc[0], done), bs[n..])
  }

  ghost predicate StandsFor(c: Config, read: string -> seq<string>, it: Item, done: bool, bs: seq<Block>) {
    match it
    case Piece(b) => bs == if c.safe && b.kind != Text then [] else [b]
    case Server(_, atts, body, _) =>
      if c.safe then bs == []
      else if c.streams(atts) && !done then bs == [Block(Script, "ns_adp_ctl stream on"), Block(Script, body)]
      else bs == [Block(Script, body)]
    case Lone(tag, _, atts) => |bs| == 1 && bs[0].kind == Script && IsCall(c, read, tag, atts, None, bs[0].body)
    case Pair(tag, _, atts, body, _) =>
      |bs| == 1 && bs[0].kind == Script && IsCall(c, read, tag, atts, Some(body), bs[0].body)
  }

  lemma ItemStands(c: Config, read: string -> seq<string>, it: Item, done: bool)
    requires ListRules(c.quote, read)
    ensures StandsFor(c, read, it, done, BlocksOf(c, it, done))
  {
    hide IsCall, TagCall, ListRules;
    match it {
      case Lone(tag, _, atts) => TagCallReads(c, read, tag, atts, None);
      case Pair(tag, _, atts, body, _) => TagCallReads(c, read, tag, atts, Some(body));
      case _ =>
    }
  }

  lemma {:induction false} ExpectedStands(c: Config, read: string -> seq<string>, doc: seq<Item>, done: bool)
    requires ListRules(c.quote, read)
    ensures Stands(c, read, doc, done, Expected(c, doc, done))
    decreases |doc|
  {
    hide ListRules, StandsFor, BlocksOf, Streaming;
    if doc != [] {
      var first, rest := BlocksOf(c, doc[0], done), Expected(c, doc[1..], Streaming(c, doc[0], done));
      assert (first + rest)[..|first|] == first && (first + rest)[|first|..] == rest;
      ItemStands(c, read, doc[0], done);
      ExpectedStands(c, read, doc[1..], Streaming(c, doc[0], done));
    }
  }

  /**
   * Parsing a printed document gives its blocks: texts and inline code as they are,
   * server-side scripts as their bodies, and registered tags as calls that read back as what
   * the tag was registered with, the attributes and the text between the tags.
   */
  lemma ParseReadsBack(c: Config, read: string -> seq<string>, doc: seq<Item>)
    requires ListRules(c.quote, read) && ItemsOk(c, doc) && forall it :: it in doc ==> NoTags(c, it)
    ensures Stands(c, read, doc, false, Blocks(c, PrintItems(doc)))
  {
    hide ListRules, ItemsOk, NoTags, Stands, Blocks, PrintItems, Expected;
    ParseUndoesPrintPlain(c, doc);
    ExpectedStands(c, read, doc, false);
  }
}
