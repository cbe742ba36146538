/**
 * Compiled ADP pages: the code text with its table of block lengths and lines, and the two ways
 * AppendBlock of nsd/adpparse.c writes it.
 */
module AdpCode {
  import opened Prelude

  const APPEND := "ns_adp_append "

  /** The block types 't', 's' and 'S' of AppendBlock. */
  datatype Kind = Text | Script | Value

  datatype Block = Block(kind: Kind, body: string)

  /** An AdpCode structure. */
  datatype Code = Code(text: string, nblocks: int, nscripts: int, len: seq<int>, line: seq<int>)

  /** What a block contributes to the text in multi-block mode. */
  function Bytes(b: Block): string {
    if b.kind == Value then APPEND + b.body else b.body
  }

  function Length(b: Block): int {
    if b.kind == Text then |Bytes(b)| else -|Bytes(b)|
  }

  function Newlines(s: string): nat {
    if s == "" then 0 else Newlines(s[..|s| - 1]) + if s[|s| - 1] == '\n' then 1 else 0
  }

  // ----- the table of a list of blocks

  function TextOf(bs: seq<Block>): string {
    if bs == [] then "" else TextOf(bs[..|bs| - 1]) + Bytes(bs[|bs| - 1])
  }

  function LengthsOf(bs: seq<Block>): seq<int> {
    if bs == [] then [] else LengthsOf(bs[..|bs| - 1]) + [Length(bs[|bs| - 1])]
  }

  /** The line of a block is the number of newlines of the blocks before it. */
  function LinesOf(bs: seq<Block>): seq<int> {
    if bs == [] then [] else LinesOf(bs[..|bs| - 1]) + [Newlines(TextOf(bs[..|bs| - 1]))]
  }

  function ScriptsOf(bs: seq<Block>): nat {
    if bs == [] then 0 else ScriptsOf(bs[..|bs| - 1]) + if bs[|bs| - 1].kind == Text then 0 else 1
  }

  function Compiled(bs: seq<Block>): Code {
    Code(TextOf(bs), |bs|, ScriptsOf(bs), LengthsOf(bs), LinesOf(bs))
  }

  // ----- reading a table back

  function Abs(n: int): nat {
    if n < 0 then -n else n
  }

  /** Where block `i` begins according to the table. */
  function Offset(len: seq<int>, i: nat): nat
    requires i <= |len|
  {
    if i == 0 then 0 else Offset(len, i - 1) + Abs(len[i - 1])
  }

  /** How many of the first `i` blocks are scripts. */
  function ScriptsBefore(len: seq<int>, i: nat): nat
    requires i <= |len|
  {
    if i == 0 then 0 else ScriptsBefore(len, i - 1) + if len[i - 1] > 0 then 0 else 1
  }

  /** The table describes the text completely. */
  ghost predicate Exact(code: Code) {
    && |code.len| == |code.line| == code.nblocks
    && Offset(code.len, |code.len|) == |code.text|
    && ScriptsBefore(code.len, |code.len|) == code.nscripts
  }

  lemma {:induction false} OffsetGrows(len: seq<int>, i: nat, j: nat)
    requires i <= j <= |len|
    ensures Offset(len, i) <= Offset(len, j)
    ensures ScriptsBefore(len, i) <= ScriptsBefore(len, j)
  {
    if i < j {
      OffsetGrows(len, i, j - 1);
    }
  }

  /** A block as AdpExec sees it: a piece of the text, to be copied or to be evaluated. */
  datatype Piece = Piece(script: bool, body: string)

  ghost function PieceAt(code: Code, i: nat): Piece
    requires Exact(code) && i < |code.len|
  {
    OffsetGrows(code.len, i, i + 1);
    OffsetGrows(code.len, i + 1, |code.len|);
    Piece(code.len[i] <= 0, code.text[Offset(code.len, i)..Offset(code.len, i + 1)])
  }

  ghost function PieceOf(b: Block): Piece {
    Piece(b.kind != Text, Bytes(b))
  }

  /** AppendBlock drops empty blocks, so every block has a body. */
  ghost predicate NonEmpty(bs: seq<Block>) {
    forall b :: b in bs ==> b.body != ""
  }

  lemma {:induction false} LensAt(bs: seq<Block>, i: nat)
    requires i < |bs|
    ensures |LengthsOf(bs)| == |LinesOf(bs)| == |bs|
    ensures LengthsOf(bs)[i] == Length(bs[i]) && LinesOf(bs)[i] == Newlines(TextOf(bs[..i]))
  {
    var init := bs[..|bs| - 1];
    if i < |init| {
      LensAt(init, i);
      assert init[..i] == bs[..i];
    } else if init != [] {
      LensAt(init, 0);
    }
  }

  lemma TextStep(bs: seq<Block>, i: nat)
    requires i < |bs|
    ensures TextOf(bs[..i + 1]) == TextOf(bs[..i]) + Bytes(bs[i])
    ensures ScriptsOf(bs[..i + 1]) == ScriptsOf(bs[..i]) + if bs[i].kind == Text then 0 else 1
  {
    assert bs[..i + 1][..i] == bs[..i];
  }

  lemma {:induction false} OffsetsAt(bs: seq<Block>, i: nat)
    requires i <= |bs| == |LengthsOf(bs)| && NonEmpty(bs)
    ensures Offset(LengthsOf(bs), i) == |TextOf(bs[..i])|
    ensures ScriptsBefore(LengthsOf(bs), i) == ScriptsOf(bs[..i])
    decreases i
  {
    hide TextOf, ScriptsOf, LengthsOf, Bytes;
    if i == 0 {
      NothingCompiled(bs[..0]);
    } else {
      OffsetsAt(bs, i - 1);
      LensAt(bs, i - 1);
      TextStep(bs, i - 1);
      assert bs[i - 1] in bs;
      BytesNonEmpty(bs[i - 1]);
    }
  }

  lemma NothingCompiled(bs: seq<Block>)
    requires bs == []
    ensures TextOf(bs) == "" && ScriptsOf(bs) == 0
  {
  }

  lemma BytesNonEmpty(b: Block)
    requires b.body != ""
    ensures |Bytes(b)| > 0
  {
  }

  lemma {:induction false} TextPrefix(bs: seq<Block>, i: nat)
    requires i <= |bs|
    ensures TextOf(bs[..i]) <= TextOf(bs)
  {
    if i < |bs| {
      TextPrefix(bs[..|bs| - 1], i);
      assert bs[..|bs| - 1][..i] == bs[..i];
    } else {
      assert bs[..i] == bs;
    }
  }

  /**
   * The block table is exact: no length is zero, the lengths add up to the text, the negative
   * ones are the scripts, the pieces are the blocks, and each block's line counts the
   * newlines of the text in front of it.
   */
  lemma TableIsExact(bs: seq<Block>)
    requires NonEmpty(bs)
    ensures var code := Compiled(bs);
            && Exact(code) && code.nblocks == |code.len| == |bs|
            && forall i :: 0 <= i < |bs| ==>
                 && code.len[i] != 0
                 && PieceAt(code, i) == PieceOf(bs[i])
                 && Offset(code.len, i) <= |code.text|
                 && code.line[i] == multiset(code.text[..Offset(code.len, i)])['\n']
  {
    hide TextOf, ScriptsOf, LengthsOf, LinesOf, Bytes, Offset, ScriptsBefore, PieceAt, PieceOf;
    var code := Compiled(bs);
    LensAll(bs);
    OffsetsAt(bs, |bs|);
    assert bs[..|bs|] == bs;
    forall i | 0 <= i < |bs|
      ensures code.len[i] != 0 && PieceAt(code, i) == PieceOf(bs[i]) && Offset(code.len, i) <= |code.text|
      ensures code.line[i] == multiset(code.text[..Offset(code.len, i)])['\n']
    {
      BlockIsExact(bs, i);
      NewlinesAreCounted(code.text[..Offset(code.len, i)]);
    }
  }

  lemma LensAll(bs: seq<Block>)
    ensures |LengthsOf(bs)| == |LinesOf(bs)| == |bs|
  {
    if bs != [] {
      LensAt(bs, 0);
    }
  }

  lemma BlockIsExact(bs: seq<Block>, i: nat)
    requires NonEmpty(bs) && i < |bs| && Exact(Compiled(bs))
    ensures var code := Compiled(bs);
            && code.len[i] != 0
            && PieceAt(code, i) == PieceOf(bs[i])
            && Offset(code.len, i) <= |code.text|
            && code.line[i] == Newlines(code.text[..Offset(code.len, i)])
  {
    hide TextOf, ScriptsOf, LengthsOf, LinesOf, Bytes, Offset, ScriptsBefore;
    LensAll(bs);
    LensAt(bs, i);
    OffsetsAt(bs, i);
    OffsetsAt(bs, i + 1);
    TextStep(bs, i);
    TextPrefix(bs, i);
    TextPrefix(bs, i + 1);
    assert Compiled(bs).text[..Offset(LengthsOf(bs), i)] == TextOf(bs[..i]);
    assert bs[i] in bs;
    BytesNonEmpty(bs[i]);
  }

  // ----- single-script mode

  /** How a block is written in single-script mode, with `quote` for list-element quoting. */
  function Rendered(quote: string -> string, b: Block): string {
    (if b.kind == Text then APPEND + quote(b.body) else Bytes(b)) + "\n"
  }

  function RenderedAll(quote: string -> string, bs: seq<Block>): string {
    if bs == [] then "" else RenderedAll(quote, bs[..|bs| - 1]) + Rendered(quote, bs[|bs| - 1])
  }

  /** The code of a page in single-script mode: one script. */
  function Single(quote: string -> string, bs: seq<Block>): Code {
    var text := RenderedAll(quote, bs);
    Code(text, 1, 1, [-|text|], [0])
  }

  /** One piece of compiled code as a line of a script. */
  ghost function LineOf(quote: string -> string, p: Piece): string {
    (if p.script then p.body else APPEND + quote(p.body)) + "\n"
  }

  /** Compiled code as a script, one line per piece. */
  ghost function ScriptOf(quote: string -> string, code: Code, n: nat): string
    requires Exact(code) && n <= |code.len|
  {
    if n == 0 then "" else ScriptOf(quote, code, n - 1) + LineOf(quote, PieceAt(code, n - 1))
  }

  /** The single script is exactly the line-by-line rendering of the multi-block code. */
  lemma SingleIsRendering(quote: string -> string, bs: seq<Block>)
    requires NonEmpty(bs)
    ensures Exact(Compiled(bs)) && Compiled(bs).nblocks == |bs|
    ensures Single(quote, bs).text == ScriptOf(quote, Compiled(bs), |bs|)
  {
    hide Compiled, Exact, PieceAt, NonEmpty, RenderedAll, ScriptOf;
    TableIsExact(bs);
    RenderingPrefix(quote, bs, |bs|);
    assert bs[..|bs|] == bs;
  }

  lemma {:induction false} RenderingPrefix(quote: string -> string, bs: seq<Block>, n: nat)
    requires NonEmpty(bs) && n <= |bs| && Exact(Compiled(bs)) && |Compiled(bs).len| == |bs|
    ensures RenderedAll(quote, bs[..n]) == ScriptOf(quote, Compiled(bs), n)
  {
    hide Compiled, PieceAt, Exact;
    if n > 0 {
      RenderingPrefix(quote, bs, n - 1);
      TableIsExact(bs);
      assert bs[..n][..n - 1] == bs[..n - 1];
      assert PieceAt(Compiled(bs), n - 1) == PieceOf(bs[n - 1]);
    }
  }

  /** The parse state of nsd/adpparse.c: buffers that AppendBlock extends in place. */
  class Parse {
    const single: bool
    const quote: string -> string
    var text: string
    var nblocks: int
    var nscripts: int
    var lengths: seq<int>
    var lines: seq<int>
    var line: nat
    ghost var blocks: seq<Block>

    ghost predicate Valid()
      reads this
    {
      && NonEmpty(blocks)
      && (single ==> text == RenderedAll(quote, blocks))
      && (!single ==> && Code(text, nblocks, nscripts, lengths, lines) == Compiled(blocks)
                      && line == Newlines(text))
    }

    constructor (single: bool, quote: string -> string)
      ensures Valid() && blocks == [] && this.single == single && this.quote == quote
    {
      this.single, this.quote := single, quote;
      text, nblocks, nscripts, lengths, lines, line, blocks := "", 0, 0, [], [], 0, [];
    }

    /** AppendBlock: empty blocks are dropped. */
    method AppendBlock(kind: Kind, body: string)
      requires Valid()
      modifies this
      ensures Valid() && blocks == Emit(old(blocks), kind, body)
    {
      if |body| > 0 {
        if single {
          AppendLine(kind, body);
        } else {
          AppendToTable(kind, body);
        }
      }
    }

    /** The single-script branch of AppendBlock. */
    method AppendLine(kind: Kind, body: string)
      requires Valid() && single && body != ""
      modifies this
      ensures Valid() && blocks == old(blocks) + [Block(kind, body)]
    {
      hide RenderedAll, Newlines, TextOf;
      ghost var was := text;
      RenderedSnoc(quote, blocks, Block(kind, body));
      match kind {
        case Value =>
          text := text + APPEND;
          text := text + body;
        case Text =>
          text := text + APPEND;
          text := AppendElement(quote, text, body);
        case Script =>
          text := text + body;
      }
      text := text + "\n";
      assert text == was + Rendered(quote, Block(kind, body));
      blocks := blocks + [Block(kind, body)];
    }

    /** The multi-block branch of AppendBlock. */
    method AppendToTable(kind: Kind, body: string)
      requires Valid() && !single && body != ""
      modifies this
      ensures Valid() && blocks == old(blocks) + [Block(kind, body)]
    {
      hide Newlines, Compiled;
      ghost var was := text;
      CompiledSnoc(blocks, Block(kind, body));
      var l := |body|;
      nblocks := nblocks + 1;
      if kind == Value {
        l := l + |APPEND|;
        text := text + APPEND;
      }
      text := text + body;
      if kind != Text {
        nscripts := nscripts + 1;
        l := -l;
      }
      lengths := lengths + [l];
      lines := lines + [line];
      CountLines(body);
      assert text == was + Bytes(Block(kind, body));
      BytesNewlines(Block(kind, body));
      NewlinesConcat(was, Bytes(Block(kind, body)));
      blocks := blocks + [Block(kind, body)];
    }

    /** The newline loop at the end of AppendBlock. */
    method CountLines(body: string)
      modifies `line
      ensures line == old(line) + Newlines(body)
    {
      var i := 0;
      while i < |body|
        invariant 0 <= i <= |body| && line == old(line) + Newlines(body[..i])
      {
        assert body[..i + 1][..i] == body[..i];
        if body[i] == '\n' {
          line := line + 1;
        }
        i := i + 1;
      }
      assert body[..i] == body;
    }

    /** The code structure once the lengths are appended. */
    method Finish() returns (code: Code)
      requires Valid()
      ensures code == if single then Single(quote, blocks) else Compiled(blocks)
    {
      if single {
        code := Code(text, 1, 1, [-|text|], [0]);
      } else {
        code := Code(text, nblocks, nscripts, lengths, lines);
      }
    }
  }

  /** The effect of AppendBlock on the list of blocks. */
  function Emit(bs: seq<Block>, kind: Kind, body: string): seq<Block> {
    if body == "" then bs else bs + [Block(kind, body)]
  }

  /** Tcl_DStringAppendElement: a separating space unless the text is empty or ends a word. */
  function AppendElement(quote: string -> string, text: string, element: string): string {
    if text == "" || text[|text| - 1] in " \t\n{" then text + quote(element) else text + " " + quote(element)
  }

  lemma {:induction false} NewlinesConcat(a: string, b: string)
    ensures Newlines(a + b) == Newlines(a) + Newlines(b)
  {
    if b == "" {
      assert a + b == a;
    } else {
      assert (a + b)[..|a + b| - 1] == a + b[..|b| - 1];
      NewlinesConcat(a, b[..|b| - 1]);
    }
  }

  lemma {:induction false} NewlinesAreCounted(s: string)
    ensures Newlines(s) == multiset(s)['\n']
  {
    if s != "" {
      NewlinesAreCounted(s[..|s| - 1]);
      assert s == s[..|s| - 1] + [s[|s| - 1]];
    }
  }

  lemma {:induction false} NoNewlines(s: string)
    requires '\n' !in s
    ensures Newlines(s) == 0
  {
    if s != "" {
      NoNewlines(s[..|s| - 1]);
    }
  }

  lemma BytesNewlines(b: Block)
    ensures Newlines(Bytes(b)) == Newlines(b.body)
  {
    NoNewlines(APPEND);
    NewlinesConcat(APPEND, b.body);
  }

  lemma RenderedSnoc(quote: string -> string, bs: seq<Block>, b: Block)
    ensures RenderedAll(quote, bs + [b]) == RenderedAll(quote, bs) + Rendered(quote, b)
  {
    assert (bs + [b])[..|bs|] == bs;
  }

  lemma CompiledSnoc(bs: seq<Block>, b: Block)
    ensures var c := Compiled(bs);
            Compiled(bs + [b]) == Code(c.text + Bytes(b), c.nblocks + 1, c.nscripts + (if b.kind == Text then 0 else 1),
                                       c.len + [Length(b)], c.line + [Newlines(c.text)])
  {
    assert (bs + [b])[..|bs|] == bs;
  }
}
