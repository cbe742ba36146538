/** AdpExec of nsd/adpeval.c, and what it makes of the two forms of compiled code. */
module AdpExec {
  import opened Prelude
  import opened AdpCode

  /** itPtr->adp.exception. */
  datatype Exception = NoException | Return | Abort | Break | Timeout

  /** The interpreter after a step, whether the step answered TCL_OK, and the exception raised. */
  datatype Outcome<S> = Outcome(state: S, ok: bool, exception: Exception)

  /** The Tcl interpreter: appending text to the output, evaluating a script, and the strict flag. */
  datatype Interp<!S> = Interp(
    append: (S, string) -> Outcome<S>, eval: (S, string) -> Outcome<S>, strict: bool)

  function Perform<S>(h: Interp<S>, p: Piece, st: S): Outcome<S> {
    if p.script then h.eval(st, p.body) else h.append(st, p.body)
  }

  /** An error breaks off the page only in strict mode, and only if it is no exception. */
  predicate Stops<S>(h: Interp<S>, o: Outcome<S>) {
    !o.ok && o.exception == NoException && h.strict
  }

  /** The pieces from `i` on, after outcome `o`. */
  ghost function Walk<S>(h: Interp<S>, code: Code, i: nat, o: Outcome<S>): Outcome<S>
    requires Exact(code) && i <= |code.len|
    decreases |code.len| - i
  {
    if i == |code.len| || o.exception != NoException then o
    else
      var o' := Perform(h, PieceAt(code, i), o.state);
      if Stops(h, o') then o' else Walk(h, code, i + 1, o')
  }

  /** Every exception counts as success; "return" is cleared. */
  function Settle<S>(o: Outcome<S>): Outcome<S> {
    match o.exception
    case NoException => o
    case Return => Outcome(o.state, true, NoException)
    case _ => Outcome(o.state, true, o.exception)
  }

  ghost function Executed<S>(h: Interp<S>, code: Code, st: S, exception: Exception): Outcome<S>
    requires Exact(code)
  {
    Settle(Walk(h, code, 0, Outcome(st, true, exception)))
  }

  /** The script objects kept for a code: those made so far hold the scripts' texts. */
  ghost predicate ObjsFit(objs: seq<Option<string>>, code: Code) {
    && Exact(code) && |objs| == code.nscripts
    && forall i :: 0 <= i < |code.len| && code.len[i] <= 0 ==>
         && ScriptsBefore(code.len, i) < |objs|
         && (objs[ScriptsBefore(code.len, i)].Some? ==>
               objs[ScriptsBefore(code.len, i)].value == PieceAt(code, i).body)
  }

  /** Different scripts have different slots. */
  lemma {:induction false} SlotsDiffer(len: seq<int>, i: nat, j: nat)
    requires i < j < |len| && len[i] <= 0
    ensures ScriptsBefore(len, i) < ScriptsBefore(len, j)
  {
    OffsetGrows(len, i + 1, j);
  }

  /**
   * AdpExec: walk the blocks, copying text and evaluating scripts through the per-interpreter
   * script objects, which are made on first use.  `visited`, `ptr` and `nscript` are where
   * the walk ends.
   */
  method Exec<S>(h: Interp<S>, code: Code, objs: array<Option<string>>, st: S, exception: Exception)
    returns (r: Outcome<S>, visited: nat, ptr: nat, nscript: nat)
    requires ObjsFit(objs[..], code)
    modifies objs
    ensures ObjsFit(objs[..], code)
    ensures r == Executed(h, code, st, exception)
    ensures visited <= code.nblocks
    ensures visited == code.nblocks ==> ptr == |code.text| && nscript == code.nscripts
    ensures visited < code.nblocks ==>
              var o := Walk(h, code, 0, Outcome(st, true, exception));
              o.exception != NoException || (h.strict && !o.ok)
  {
    hide PieceAt, Offset, ScriptsBefore;
    var o := Outcome(st, true, exception);
    visited, ptr, nscript := 0, 0, 0;
    assert Offset(code.len, 0) == 0 && ScriptsBefore(code.len, 0) == 0 by { Origin(code.len); }
    while o.exception == NoException && visited < code.nblocks
      invariant 0 <= visited <= code.nblocks
      invariant ptr == Offset(code.len, visited) && nscript == ScriptsBefore(code.len, visited)
      invariant ObjsFit(objs[..], code)
      invariant Walk(h, code, visited, o) == Walk(h, code, 0, Outcome(st, true, exception))
      decreases code.nblocks - visited
    {
      var len := code.len[visited];
      Advance(code, visited);
      if len > 0 {
        o := h.append(o.state, code.text[ptr..ptr + len]);
      } else {
        len := -len;
        if objs[nscript].None? {
          NewObject(objs[..], code, visited);
          objs[nscript] := Some(code.text[ptr..ptr + len]);
        }
        assert objs[..][nscript] == objs[nscript];
        o := h.eval(o.state, objs[nscript].value);
        nscript := nscript + 1;
      }
      if !o.ok && o.exception == NoException && h.strict {
        r := Settle(o);
        return;
      }
      ptr := ptr + len;
      visited := visited + 1;
    }
    r := Settle(o);
  }

  lemma Origin(len: seq<int>)
    ensures Offset(len, 0) == 0 && ScriptsBefore(len, 0) == 0
  {
  }

  /** Where the next block begins and what it is. */
  lemma Advance(code: Code, i: nat)
    requires Exact(code) && i < |code.len|
    ensures Offset(code.len, i + 1) == Offset(code.len, i) + Abs(code.len[i]) <= |code.text|
    ensures ScriptsBefore(code.len, i + 1) == ScriptsBefore(code.len, i) + if code.len[i] > 0 then 0 else 1
    ensures PieceAt(code, i) == Piece(code.len[i] <= 0, code.text[Offset(code.len, i)..Offset(code.len, i + 1)])
    ensures code.len[i] <= 0 ==> ScriptsBefore(code.len, i) < code.nscripts
  {
    OffsetGrows(code.len, i + 1, |code.len|);
  }

  /** Filling the slot of script `i` with its text keeps the objects right. */
  lemma NewObject(objs: seq<Option<string>>, code: Code, i: nat)
    requires ObjsFit(objs, code) && i < |code.len| && code.len[i] <= 0
    ensures ScriptsBefore(code.len, i) < |objs|
    ensures ObjsFit(objs[ScriptsBefore(code.len, i) := Some(PieceAt(code, i).body)], code)
  {
    hide PieceAt, ScriptsBefore;
    var objs' := objs[ScriptsBefore(code.len, i) := Some(PieceAt(code, i).body)];
    forall j | 0 <= j < |code.len| && code.len[j] <= 0
      ensures ScriptsBefore(code.len, j) < |objs'|
      ensures objs'[ScriptsBefore(code.len, j)].Some? ==>
                objs'[ScriptsBefore(code.len, j)].value == PieceAt(code, j).body
    {
      if i < j {
        SlotsDiffer(code.len, i, j);
      } else if j < i {
        SlotsDiffer(code.len, j, i);
      }
    }
  }

  // ----- the two forms of code mean the same

  /** The pieces of `bs[..n]` one after the other, as long as each of them succeeds. */
  ghost predicate Clean<S>(h: Interp<S>, bs: seq<Block>, n: nat, st: S)
    requires n <= |bs|
  {
    n == 0 ||
    (Clean(h, bs, n - 1, st) &&
     var o := Perform(h, PieceOf(bs[n - 1]), Final(h, bs, n - 1, st));
     o.ok && o.exception == NoException)
  }

  ghost function Final<S>(h: Interp<S>, bs: seq<Block>, n: nat, st: S): S
    requires n <= |bs|
  {
    if n == 0 then st else Perform(h, PieceOf(bs[n - 1]), Final(h, bs, n - 1, st)).state
  }

  /**
   * What is assumed of Tcl.  `complete` holds of scripts that end with their last command;
   * evaluating such a script, a newline and another script is evaluating one after the
   * other; and ns_adp_append with a quoted element appends the element to the output.
   */
  ghost predicate TclRules<S(!new)>(h: Interp<S>, quote: string -> string, complete: string -> bool) {
    && (forall st :: h.eval(st, "") == Outcome(st, true, NoException))
    && (forall st, t :: h.eval(st, "ns_adp_append " + quote(t)) == h.append(st, t))
    && (forall t :: complete("ns_adp_append " + quote(t)))
    && (forall st, a, b :: complete(a) && h.eval(st, a).ok && h.eval(st, a).exception == NoException ==>
          h.eval(st, a + "\n" + b) == h.eval(h.eval(st, a).state, b))
  }

  ghost predicate AllComplete(complete: string -> bool, bs: seq<Block>) {
    forall b :: b in bs && b.kind != Text ==> complete(Bytes(b))
  }

  /** The single script from block `n` on: what is left to evaluate. */
  ghost function Rest(quote: string -> string, bs: seq<Block>, n: nat): string
    requires n <= |bs|
    decreases |bs| - n
  {
    if n == |bs| then "" else Rendered(quote, bs[n]) + Rest(quote, bs, n + 1)
  }

  lemma {:induction false} RestSplits(quote: string -> string, bs: seq<Block>, n: nat)
    requires n <= |bs|
    ensures RenderedAll(quote, bs) == RenderedAll(quote, bs[..n]) + Rest(quote, bs, n)
    decreases |bs| - n
  {
    hide RenderedAll, Rendered;
    if n == |bs| {
      assert bs[..n] == bs;
      assert RenderedAll(quote, bs) + "" == RenderedAll(quote, bs);
    } else {
      RestSplits(quote, bs, n + 1);
      assert bs[..n + 1] == bs[..n] + [bs[n]];
      RenderedSnoc(quote, bs[..n], bs[n]);
      Associates(RenderedAll(quote, bs[..n]), Rendered(quote, bs[n]), Rest(quote, bs, n + 1));
    }
  }

  lemma Associates(a: string, b: string, c: string)
    ensures (a + b) + c == a + (b + c)
  {
  }

  lemma FinalStep<S>(h: Interp<S>, bs: seq<Block>, n: nat, st: S)
    requires n < |bs| && Clean(h, bs, |bs|, st)
    ensures Perform(h, PieceOf(bs[n]), Final(h, bs, n, st)) == Outcome(Final(h, bs, n + 1, st), true, NoException)
  {
    CleanPrefix(h, bs, n + 1, st);
  }

  lemma RestStep(quote: string -> string, bs: seq<Block>, n: nat)
    requires n < |bs|
    ensures Rest(quote, bs, n) == CommandOf(quote, bs[n]) + "\n" + Rest(quote, bs, n + 1)
  {
  }

  /** A block as a command of the single script, without the newline. */
  ghost function CommandOf(quote: string -> string, b: Block): string {
    if b.kind == Text then APPEND + quote(b.body) else Bytes(b)
  }

  /** Evaluating a block's command, a newline and more is performing the block and evaluating the rest. */
  lemma EvalLine<S(!new)>(
    h: Interp<S>, quote: string -> string, complete: string -> bool, b: Block, more: string, st: S, st': S)
    requires TclRules(h, quote, complete) && (b.kind != Text ==> complete(Bytes(b)))
    requires Perform(h, PieceOf(b), st) == Outcome(st', true, NoException)
    ensures h.eval(st, CommandOf(quote, b) + "\n" + more) == h.eval(st', more)
  {
    var line := CommandOf(quote, b);
    assert complete(line) && h.eval(st, line) == Outcome(st', true, NoException);
  }

  lemma EvalNothing<S(!new)>(h: Interp<S>, quote: string -> string, complete: string -> bool, bs: seq<Block>, st: S)
    requires TclRules(h, quote, complete)
    ensures h.eval(st, Rest(quote, bs, |bs|)) == Outcome(st, true, NoException)
  {
  }

  lemma {:induction false} EvalRest<S(!new)>(
    h: Interp<S>, quote: string -> string, complete: string -> bool, bs: seq<Block>, n: nat, st: S)
    requires TclRules(h, quote, complete) && AllComplete(complete, bs)
    requires n <= |bs| && Clean(h, bs, |bs|, st)
    ensures h.eval(Final(h, bs, n, st), Rest(quote, bs, n)) == Outcome(Final(h, bs, |bs|, st), true, NoException)
    decreases |bs| - n
  {
    hide TclRules, Clean, Final, Rest, Perform, PieceOf, CommandOf, Bytes;
    if n == |bs| {
      EvalNothing(h, quote, complete, bs, Final(h, bs, n, st));
    } else {
      EvalRest(h, quote, complete, bs, n + 1, st);
      FinalStep(h, bs, n, st);
      RestStep(quote, bs, n);
      assert bs[n] in bs;
      EvalLine(h, quote, complete, bs[n], Rest(quote, bs, n + 1), Final(h, bs, n, st), Final(h, bs, n + 1, st));
    }
  }

  lemma {:induction false} CleanPrefix<S>(h: Interp<S>, bs: seq<Block>, n: nat, st: S)
    requires n <= |bs| && Clean(h, bs, |bs|, st)
    ensures Clean(h, bs, n, st)
    decreases |bs| - n
  {
    if n < |bs| {
      CleanPrefix(h, bs, n + 1, st);
    }
  }

  lemma {:induction false} WalkIsFinal<S>(h: Interp<S>, bs: seq<Block>, n: nat, st: S)
    requires NonEmpty(bs) && Exact(Compiled(bs)) && n <= |bs| == |Compiled(bs).len| && Clean(h, bs, |bs|, st)
    ensures Walk(h, Compiled(bs), n, Outcome(Final(h, bs, n, st), true, NoException))
         == Outcome(Final(h, bs, |bs|, st), true, NoException)
    decreases |bs| - n
  {
    hide Compiled, PieceAt, PieceOf, Exact, Clean, Final, Perform, NonEmpty;
    if n < |bs| {
      BlockIsExact(bs, n);
      FinalStep(h, bs, n, st);
      WalkIsFinal(h, bs, n + 1, st);
    }
  }

  /**
   * A page of complete scripts that runs without errors or exceptions does the same whether
   * it was compiled to a table of blocks or to a single script.
   */
  lemma SingleMeansTheSame<S(!new)>(
    h: Interp<S>, quote: string -> string, complete: string -> bool, bs: seq<Block>, st: S)
    requires NonEmpty(bs) && TclRules(h, quote, complete) && AllComplete(complete, bs)
    requires Clean(h, bs, |bs|, st)
    ensures Exact(Compiled(bs)) && Exact(Single(quote, bs))
    ensures Executed(h, Single(quote, bs), st, NoException) == Executed(h, Compiled(bs), st, NoException)
  {
    hide Clean, TclRules, AllComplete, NonEmpty, Compiled, Single, PieceAt, Walk, Rest, Exact;
    TableIsExact(bs);
    LensAll(bs);
    WalkIsFinal(h, bs, 0, st);
    SingleWalk(h, quote, bs, st);
    EvalRest(h, quote, complete, bs, 0, st);
    RestSplits(quote, bs, 0);
    assert RenderedAll(quote, bs) == Rest(quote, bs, 0);
  }

  lemma SingleWalk<S>(h: Interp<S>, quote: string -> string, bs: seq<Block>, st: S)
    ensures Exact(Single(quote, bs))
    ensures var o := h.eval(st, RenderedAll(quote, bs));
            o == Outcome(o.state, true, NoException) ==>
              Walk(h, Single(quote, bs), 0, Outcome(st, true, NoException)) == o
  {
    var code := Single(quote, bs);
    assert Offset(code.len, 1) == Offset(code.len, 0) + Abs(code.len[0]) == |code.text|;
    assert ScriptsBefore(code.len, 1) == ScriptsBefore(code.len, 0) + 1 == 1;
    assert PieceAt(code, 0) == Piece(true, code.text);
  }

  // ----- what a run comes to, with errors and exceptions

  /** What each kind of block does: text is appended, code is evaluated, and a value is appended by a command. */
  lemma PieceMeans<S>(h: Interp<S>, b: Block, st: S)
    ensures Perform(h, PieceOf(b), st) ==
              match b.kind
              case Text => h.append(st, b.body)
              case Script => h.eval(st, b.body)
              case Value => h.eval(st, "ns_adp_append " + b.body)
  {
  }

  /** The outcome after the first `n` pieces, whatever they answer. */
  ghost function After<S>(h: Interp<S>, code: Code, n: nat, st: S): Outcome<S>
    requires Exact(code) && n <= |code.len|
  {
    if n == 0 then Outcome(st, true, NoException)
    else Perform(h, PieceAt(code, n - 1), After(h, code, n - 1, st).state)
  }

  /** A piece breaks the page off: it raised an exception, or it failed in strict mode. */
  ghost predicate Breaks<S>(h: Interp<S>, o: Outcome<S>) {
    o.exception != NoException || (h.strict && !o.ok)
  }

  lemma {:induction false} WalkFrom<S>(h: Interp<S>, code: Code, i: nat, st: S) returns (n: nat)
    requires Exact(code) && i <= |code.len| && After(h, code, i, st).exception == NoException
    ensures i <= n <= |code.len| && Walk(h, code, i, After(h, code, i, st)) == After(h, code, n, st)
    ensures forall m :: i < m < n ==> !Breaks(h, After(h, code, m, st))
    ensures n < |code.len| ==> i < n && Breaks(h, After(h, code, n, st))
    decreases |code.len| - i
  {
    hide PieceAt, Exact, Perform;
    n := i;
    if i < |code.len| {
      var o := After(h, code, i + 1, st);
      if o.exception != NoException || Stops(h, o) {
        n := i + 1;
      } else {
        n := WalkFrom(h, code, i + 1, st);
      }
    }
  }

  /**
   * A page is run up to the first piece that breaks it off, or to the end: errors that are not
   * exceptions break it off only in strict mode.  The result counts as a success if the last
   * piece that was run succeeded or raised an exception; "return" ends with this page, other
   * exceptions go on to the pages that include it.
   */
  lemma ExecutedUpTo<S>(h: Interp<S>, code: Code, st: S) returns (n: nat)
    requires Exact(code)
    ensures n <= |code.len|
    ensures forall m :: 0 < m < n ==> !Breaks(h, After(h, code, m, st))
    ensures n < |code.len| ==> 0 < n && Breaks(h, After(h, code, n, st))
    ensures var o, r := After(h, code, n, st), Executed(h, code, st, NoException);
            && r.state == o.state && r.ok == (o.ok || o.exception != NoException)
            && r.exception == if o.exception == Return then NoException else o.exception
  {
    hide PieceAt, Exact, Perform, Walk;
    n := WalkFrom(h, code, 0, st);
  }

  /** A page that begins under an exception runs nothing. */
  lemma ExceptionRunsNothing<S>(h: Interp<S>, code: Code, st: S, exception: Exception)
    requires Exact(code) && exception != NoException
    ensures Executed(h, code, st, exception) == Outcome(st, true, if exception == Return then NoException else exception)
  {
    hide PieceAt, Exact;
  }
}
