/** NsParseTagEnd of nsd/adpparse.c finds the end of a printed start tag, past every quoted ">". */
module AdpAttrs {
  import opened Prelude
  import opened Chars
  import opened AdpText

  /** An attribute: with a quoted value, or with a value that needs no quotes. */
  datatype Attr = QuotedAttr(name: string, quote: char, value: string) | BareAttr(name: string, value: string)

  /** A word as NsParseTagEnd takes it for a name or an unquoted value. */
  predicate Word(s: string) {
    s != "" && FirstChar(s[0]) && forall i :: 0 <= i < |s| ==> NameChar(s[i])
  }

  predicate AttrOk(a: Attr) {
    && Word(a.name)
    && match a
       case QuotedAttr(_, q, value) => (q == '"' || q == '\'') && forall i :: 0 <= i < |value| ==> value[i] != q
       case BareAttr(_, value) => Word(value)
  }

  function PrintValue(a: Attr): string {
    match a
    case QuotedAttr(_, q, value) => [q] + value + [q]
    case BareAttr(_, value) => value
  }

  function PrintAttr(a: Attr): string {
    " " + a.name + "=" + PrintValue(a)
  }

  /** All attributes, and an optional word at the end that has no value. */
  function PrintAttrs(ats: seq<Attr>, flag: string): string {
    if ats == [] then (if flag == "" then "" else " " + flag) else PrintAttr(ats[0]) + PrintAttrs(ats[1..], flag)
  }

  predicate AttrsOk(ats: seq<Attr>, flag: string) {
    (forall i :: 0 <= i < |ats| ==> AttrOk(ats[i])) && (flag == "" || Word(flag))
  }

  // ----- words

  lemma {:induction false} SkipNameIs(p: string, i: nat, b: nat)
    requires i <= b < |p| && !NameChar(p[b]) && forall j :: i <= j < b ==> NameChar(p[j])
    ensures SkipName(p, i) == b
    decreases b - i
  {
    if i < b {
      SkipNameIs(p, i + 1, b);
    }
  }

  /** A word in the page, up to the character that ends it. */
  lemma WordAt(p: string, i: nat, w: string)
    requires Holds(p, i, w) && Word(w) && i + |w| < |p| && !NameChar(p[i + |w|])
    ensures FirstChar(p[i]) && !IsSpace(p[i]) && p[i] != '>' && SkipName(p, i + 1) == i + |w|
  {
    hide Holds, SkipName;
    HoldsAt(p, i, w);
    assert p[i] == w[0];
    SkipNameIs(p, i + 1, i + |w|);
  }

  lemma SkipSpaceOne(p: string, i: nat)
    requires i + 1 < |p| && IsSpace(p[i]) && !IsSpace(p[i + 1])
    ensures SkipSpace(p, i) == i + 1
  {
  }

  lemma SkipSpaceNone(p: string, i: nat)
    requires i < |p| && !IsSpace(p[i])
    ensures SkipSpace(p, i) == i
  {
  }

  // ----- one attribute

  lemma AttrParts(p: string, i: nat, a: Attr)
    requires Holds(p, i, PrintAttr(a))
    ensures var b := i + 1 + |a.name|;
            && b + 1 + |PrintValue(a)| <= |p| && p[i] == ' ' && p[b] == '='
            && Holds(p, i + 1, a.name) && Holds(p, b + 1, PrintValue(a))
  {
    hide Holds, PrintValue;
    HoldsParts(p, i, " " + a.name + "=", PrintValue(a));
    HoldsParts(p, i, " " + a.name, "=");
    HoldsParts(p, i, " ", a.name);
    HoldsAt(p, i, " ");
    HoldsAt(p, i + 1 + |a.name|, "=");
    HoldsFits(p, i + 2 + |a.name|, PrintValue(a));
  }

  /** What ends an attribute: the next one, or the tag. */
  predicate Ends(c: char) {
    c == ' ' || c == '>'
  }

  lemma ValueIsRead(p: string, b: nat, a: Attr)
    requires AttrOk(a) && Holds(p, b + 1, PrintValue(a)) && b + 1 + |PrintValue(a)| < |p| && Ends(p[b + 1 + |PrintValue(a)|])
    ensures ReadValue(p, b) == More(b + 1 + |PrintValue(a)|)
  {
    hide Holds, SkipName, SkipSpace, Find;
    var v := b + 1;
    match a {
      case QuotedAttr(_, q, value) =>
        HoldsParts(p, v, [q] + value, [q]);
        HoldsParts(p, v, [q], value);
        HoldsAt(p, v, [q]);
        HoldsAt(p, v + 1, value);
        HoldsAt(p, v + 1 + |value|, [q]);
        SkipSpaceNone(p, v);
        assert p[v + 1 + |value|] == q && p[v] == q;
        assert Find(p, v + 1, q) == v + 1 + |value|;
      case BareAttr(_, value) =>
        WordAt(p, v, value);
        SkipSpaceNone(p, v);
    }
  }

  lemma AttributeIsRead(p: string, i: nat, a: Attr)
    requires AttrOk(a) && Holds(p, i, PrintAttr(a)) && i + |PrintAttr(a)| < |p| && Ends(p[i + |PrintAttr(a)|])
    ensures ReadAttribute(p, i) == More(i + |PrintAttr(a)|)
  {
    hide Holds, SkipName, SkipSpace, ReadValue, PrintValue;
    AttrParts(p, i, a);
    var b := i + 1 + |a.name|;
    WordAt(p, i + 1, a.name);
    SkipSpaceOne(p, i);
    SkipSpaceNone(p, b);
    ValueIsRead(p, b, a);
  }

  /** The end of the tag, with or without a last word before it. */
  lemma EndIsRead(p: string, i: nat, flag: string)
    requires flag == "" || Word(flag)
    requires Holds(p, i, PrintAttrs([], flag) + ">")
    ensures ReadAttribute(p, i) == Done(i + |PrintAttrs([], flag)|)
  {
    hide Holds, SkipName, SkipSpace, ReadValue;
    HoldsFits(p, i, PrintAttrs([], flag) + ">");
    if flag == "" {
      assert PrintAttrs([], flag) + ">" == ">";
      HoldsAt(p, i, ">");
      SkipSpaceNone(p, i);
    } else {
      HoldsParts(p, i, " " + flag, ">");
      HoldsParts(p, i, " ", flag);
      HoldsAt(p, i, " ");
      HoldsAt(p, i + 1 + |flag|, ">");
      WordAt(p, i + 1, flag);
      SkipSpaceOne(p, i);
      SkipSpaceNone(p, i + 1 + |flag|);
    }
  }

  lemma PrintedEnds(p: string, i: nat, ats: seq<Attr>, flag: string)
    requires Holds(p, i, PrintAttrs(ats, flag) + ">")
    ensures i < |p| && Ends(p[i])
  {
    HoldsAt(p, i, PrintAttrs(ats, flag) + ">");
  }

  /** The attribute loop gets to the end of the printed attributes. */
  lemma {:induction false} AttributesAreRead(p: string, i: nat, ats: seq<Attr>, flag: string)
    requires AttrsOk(ats, flag) && Holds(p, i, PrintAttrs(ats, flag) + ">")
    ensures i + |PrintAttrs(ats, flag)| < |p| && AttributesEnd(p, i) == Some(i + |PrintAttrs(ats, flag)|)
    decreases |ats|
  {
    hide Holds, ReadAttribute, PrintAttr, AttrOk, Word;
    HoldsFits(p, i, PrintAttrs(ats, flag) + ">");
    if ats == [] {
      EndIsRead(p, i, flag);
    } else {
      var rest := PrintAttrs(ats[1..], flag) + ">";
      assert PrintAttrs(ats, flag) + ">" == PrintAttr(ats[0]) + rest;
      HoldsParts(p, i, PrintAttr(ats[0]), rest);
      PrintedEnds(p, i + |PrintAttr(ats[0])|, ats[1..], flag);
      AttributeIsRead(p, i, ats[0]);
      AttributesAreRead(p, i + |PrintAttr(ats[0])|, ats[1..], flag);
    }
  }

  /**
   * The end of a printed start tag is found: whatever ">" the quoted values hold, and
   * whatever follows the tag.
   */
  lemma TagEndOfPrinted(p: string, i: nat, name: string, ats: seq<Attr>, flag: string)
    requires Word(name) && AttrsOk(ats, flag) && Holds(p, i, "<" + name + PrintAttrs(ats, flag) + ">")
    ensures var e := i + 1 + |name| + |PrintAttrs(ats, flag)|;
            e < |p| && p[i] == '<' && TagEnd(p, i) == e
  {
    hide Holds, SkipName, PrintAttrs, AttributesEnd, Find;
    var attrs := PrintAttrs(ats, flag) + ">";
    assert "<" + name + PrintAttrs(ats, flag) + ">" == ("<" + name) + attrs;
    HoldsParts(p, i, "<" + name, attrs);
    HoldsParts(p, i, "<", name);
    HoldsAt(p, i, "<");
    var a := i + 1 + |name|;
    PrintedEnds(p, a, ats, flag);
    WordAt(p, i + 1, name);
    AttributesAreRead(p, a, ats, flag);
  }
}
