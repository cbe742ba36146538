/**
 * The output of an ADP page: NsAdpAppend of nsd/adpcmds.c, NsAdpFlush of nsd/adprequest.c and
 * NsAdpReset of nsd/adpeval.c.
 *
 * What is written is recorded: each write to the connection with its streaming flag, and the
 * characters that went to a channel.  What the connection and the channel answer is given
 * with each call.
 */
module AdpOutput {
  import opened Prelude
  import opened Chars

  datatype Exception = NoException | Abort | OtherException

  datatype Flags = Flags(stream: bool, trim: bool, expire: bool, autoabort: bool, flushed: bool)

  datatype Conn = Conn(closed: bool, viaWriter: bool, skipBody: bool)

  datatype Write = Write(body: string, stream: bool)

  /** `inner` is the buffer of a frame whose output is captured, if the current frame is one. */
  datatype Output = Output(
    conn: Option<Conn>, chan: bool, exception: Exception, flags: Flags, bufsize: nat,
    active: bool, inner: Option<string>, output: string,
    wire: seq<Write>, channel: string, expires: bool)

  /** The configuration of the server, which NsAdpReset goes back to. */
  datatype Defaults = Defaults(flags: Flags, bufsize: nat)

  /**
   * What the outside does during a flush: whether the write to the connection succeeds, and
   * how many characters each write to the channel takes, zero for a failure.
   */
  datatype World = World(ok: bool, chunks: seq<nat>)

  /** What a channel takes of `s`, and whether it takes all. */
  function ChannelWrite(s: string, chunks: seq<nat>): (string, bool)
    decreases |s|
  {
    if s == "" || chunks == [] then (s, true)
    else if chunks[0] == 0 then ("", false)
    else
      var n := if chunks[0] < |s| then chunks[0] else |s|;
      var (w, ok) := ChannelWrite(s[n..], chunks[1..]);
      (s[..n] + w, ok)
  }

  /** A channel takes a beginning of the text, and all of it exactly when no write fails. */
  lemma {:induction false} ChannelTakesPrefix(s: string, chunks: seq<nat>)
    ensures var (w, ok) := ChannelWrite(s, chunks); w <= s && (ok <==> w == s)
    decreases |s|
  {
    if s != "" && chunks != [] && chunks[0] > 0 {
      var n := if chunks[0] < |s| then chunks[0] else |s|;
      ChannelTakesPrefix(s[n..], chunks[1..]);
      assert s == s[..n] + s[n..];
    }
  }

  /** One write to the channel, on which `gone` has been written. */
  lemma ChannelStep(gone: string, s: string, chunks: seq<nat>)
    ensures var (w, ok) := ChannelWrite(s, chunks);
            if s == "" || chunks == [] then w == s && ok
            else if chunks[0] == 0 then gone + w == gone && !ok
            else
              var n := if chunks[0] < |s| then chunks[0] else |s|;
              ok == ChannelWrite(s[n..], chunks[1..]).1
              && gone + w == (gone + s[..n]) + ChannelWrite(s[n..], chunks[1..]).0
  {
    if s != "" && chunks != [] && chunks[0] > 0 {
      var n := if chunks[0] < |s| then chunks[0] else |s|;
      var more := ChannelWrite(s[n..], chunks[1..]).0;
      assert gone + (s[..n] + more) == (gone + s[..n]) + more;
    }
  }

  function Reset(o: Output, d: Defaults): Output {
    o.(exception := NoException, chan := false, bufsize := d.bufsize, flags := d.flags, output := "")
  }

  /** The part of NsAdpFlush that sends `body`. */
  function Send(o: Output, body: string, stream: bool, w: World): (Output, bool) {
    if o.chan then
      var (taken, ok) := ChannelWrite(body, w.chunks);
      (o.(channel := o.channel + taken), ok)
    else if o.conn.Some? && o.conn.value.closed then (o, true)
    else
      var o1 := o.(expires := o.expires || (!o.flags.flushed && o.flags.expire));
      var sent := if o.conn.Some? && o.conn.value.skipBody then "" else body;
      if w.ok then (o1.(wire := o1.wire + [Write(sent, stream)]), true) else (o1, false)
  }

  /** The part of NsAdpFlush that decides whether to send. */
  function Deliver(o: Output, body: string, stream: bool, w: World): (Output, bool)
    requires o.conn.Some?
  {
    if o.exception == Abort then (o, false)
    else if o.conn.value.viaWriter || (body == "" && stream) then (o, true)
    else
      var (s, ok) := Send(o, body, stream, w);
      (s.(flags := s.flags.(flushed := true),
          exception := if !ok && s.flags.autoabort then Abort else s.exception), ok)
  }

  /** What a flush has to send: the buffer, trimmed if nothing was sent yet. */
  function Body(o: Output): string {
    if o.flags.trim && !o.flags.flushed then TrimLeft(o.output) else o.output
  }

  /** NsAdpFlush; the second result is whether it returns TCL_OK. */
  function Flush(o: Output, stream: bool, d: Defaults, w: World): (Output, bool) {
    if o.conn.None? then (o, false)
    else if o.output == "" && o.flags.flushed then (if stream then o else Reset(o, d), true)
    else
      var (o1, ok) := Deliver(o, Body(o), stream, w);
      var o2 := o1.(output := "");
      (if stream then o2 else Reset(o2, d), ok)
  }

  /** NsAdpAppend. */
  function Append(o: Output, s: string, d: Defaults, w: World): (Output, bool) {
    if !o.active then (o, false)
    else
      var o1 := match o.inner
                case None => o.(output := o.output + s)
                case Some(i) => o.(inner := Some(i + s));
      var len := if o1.inner.Some? then |o1.inner.value| else |o1.output|;
      if o1.flags.stream || len > o1.bufsize then Flush(o1, true, d, w) else (o1, true)
  }

  // ----- the imperative form

  class Interp {
    var conn: Option<Conn>
    var chan: bool
    var exception: Exception
    var flags: Flags
    var bufsize: nat
    var active: bool
    var inner: Option<string>
    var output: string
    var wire: seq<Write>
    var channel: string
    var expires: bool
    const defaults: Defaults

    constructor (o: Output, d: Defaults)
      ensures View() == o && defaults == d
    {
      conn, chan, exception, flags, bufsize := o.conn, o.chan, o.exception, o.flags, o.bufsize;
      active, inner, output := o.active, o.inner, o.output;
      wire, channel, expires := o.wire, o.channel, o.expires;
      defaults := d;
    }

    ghost function View(): Output
      reads this
    {
      Output(conn, chan, exception, flags, bufsize, active, inner, output, wire, channel, expires)
    }

    method NsAdpReset()
      modifies this
      ensures View() == Reset(old(View()), defaults)
    {
      exception := NoException;
      chan := false;
      bufsize := defaults.bufsize;
      flags := defaults.flags;
      output := "";
    }

    /** The write loop of a flush to a channel. */
    method WriteToChannel(body: string, chunks: seq<nat>) returns (ok: bool)
      modifies this`channel
      ensures channel == old(channel) + ChannelWrite(body, chunks).0 && ok == ChannelWrite(body, chunks).1
    {
      hide ChannelWrite;
      var buf: string, rest: seq<nat> := body, chunks;
      while buf != "" && rest != []
        invariant channel + ChannelWrite(buf, rest).0 == old(channel) + ChannelWrite(body, chunks).0
        invariant ChannelWrite(buf, rest).1 == ChannelWrite(body, chunks).1
        decreases |buf|
      {
        ChannelStep(channel, buf, rest);
        if rest[0] == 0 {
          return false;
        }
        var n := if rest[0] < |buf| then rest[0] else |buf|;
        channel := channel + buf[..n];
        buf, rest := buf[n..], rest[1..];
      }
      ChannelStep(channel, buf, rest);
      channel := channel + buf;
      ok := true;
    }

    /** The part that sends the buffer, to the channel or to the connection. */
    method SendBody(body: string, stream: bool, w: World) returns (ok: bool)
      requires conn.Some?
      modifies this
      ensures (View(), ok) == Send(old(View()), body, stream, w)
    {
      hide ChannelWrite;
      if chan {
        ok := WriteToChannel(body, w.chunks);
      } else if conn.value.closed {
        ok := true;
      } else {
        if !flags.flushed && flags.expire {
          expires := true;
        }
        var buf := if conn.value.skipBody then "" else body;
        ok := w.ok;
        if ok {
          wire := wire + [Write(buf, stream)];
        }
      }
    }

    /** The trim loop of a flush. */
    method SkipBlanks() returns (buf: string)
      ensures buf == TrimLeft(output)
    {
      buf := output;
      while buf != "" && IsSpace(buf[0])
        invariant TrimLeft(buf) == TrimLeft(output)
        decreases |buf|
      {
        buf := buf[1..];
      }
    }

    method NsAdpFlush(stream: bool, w: World) returns (ok: bool)
      modifies this
      ensures (View(), ok) == Flush(old(View()), stream, defaults, w)
    {
      hide TrimLeft, Deliver, Reset;
      if conn.None? {
        return false;
      }
      if output == "" && flags.flushed {
        if !stream {
          NsAdpReset();
        }
        return true;
      }
      var buf := output;
      if flags.trim && !flags.flushed {
        buf := SkipBlanks();
      }
      ok := DeliverBody(buf, stream, w);
      output := "";
      if !stream {
        NsAdpReset();
      }
    }

    method DeliverBody(buf: string, stream: bool, w: World) returns (ok: bool)
      requires conn.Some?
      modifies this
      ensures (View(), ok) == Deliver(old(View()), buf, stream, w)
    {
      hide Send;
      if exception == Abort {
        ok := false;
      } else if conn.value.viaWriter || (buf == "" && stream) {
        ok := true;
      } else {
        ok := SendBody(buf, stream, w);
        if !ok && flags.autoabort {
          exception := Abort;
        }
        flags := flags.(flushed := true);
      }
    }

    method NsAdpAppend(s: string, w: World) returns (ok: bool)
      modifies this
      ensures (View(), ok) == Append(old(View()), s, defaults, w)
    {
      if !active {
        return false;
      }
      var len;
      if inner.Some? {
        inner := Some(inner.value + s);
        len := |inner.value|;
      } else {
        output := output + s;
        len := |output|;
      }
      ok := true;
      if flags.stream || len > bufsize {
        ok := NsAdpFlush(true, w);
      }
    }
  }

  // ----- whole pages

  /** What happens while a page runs, up to the final flush. */
  datatype Op =
    | OpAppend(s: string, w: World)
    | OpFlush(w: World)
    | OpStream(on: bool)
    | OpBufsize(size: nat)
    /** A frame begins or ends whose output is captured. */
    | OpFrame(inner: Option<string>)

  function Step(o: Output, op: Op, d: Defaults): Output {
    match op
    case OpAppend(s, w) => Append(o, s, d, w).0
    case OpFlush(w) => Flush(o, true, d, w).0
    case OpStream(on) => o.(flags := o.flags.(stream := on))
    case OpBufsize(size) => o.(bufsize := size)
    case OpFrame(inner) => o.(inner := inner)
  }

  function Run(o: Output, ops: seq<Op>, d: Defaults): Output
    decreases |ops|
  {
    if ops == [] then o else Run(Step(o, ops[0], d), ops[1..], d)
  }

  /** The page is run and flushed for the last time. */
  function Page(o: Output, ops: seq<Op>, d: Defaults, w: World): Output {
    Flush(Run(o, ops, d), false, d, w).0
  }

  /** The text that the operations append to the page itself. */
  function Appended(captured: bool, ops: seq<Op>): string
    decreases |ops|
  {
    if ops == [] then ""
    else
      var now := if ops[0].OpAppend? && !captured then ops[0].s else "";
      now + Appended(if ops[0].OpFrame? then ops[0].inner.Some? else captured, ops[1..])
  }

  function Bodies(wire: seq<Write>): string {
    if wire == [] then "" else Bodies(wire[..|wire| - 1]) + wire[|wire| - 1].body
  }

  /** What has gone out so far, to the channel or to the connection. */
  function Gone(o: Output, chan: bool): string {
    if chan then o.channel else Bodies(o.wire)
  }

  /** The text that must go out for an appended text. */
  function Expected(trim: bool, text: string): string {
    if trim then TrimLeft(text) else text
  }

  predicate WorldSucceeds(w: World) {
    w.ok && forall i :: 0 <= i < |w.chunks| ==> w.chunks[i] > 0
  }

  predicate OpSucceeds(op: Op) {
    (op.OpAppend? || op.OpFlush?) ==> WorldSucceeds(op.w)
  }

  /** There is somewhere to send to. */
  predicate Open(o: Output) {
    && o.conn.Some? && !o.conn.value.viaWriter && o.active
    && (o.chan || (!o.conn.value.closed && !o.conn.value.skipBody))
  }

  // ----- facts about writing

  lemma {:induction false} ChannelTakesAll(s: string, chunks: seq<nat>)
    requires forall i :: 0 <= i < |chunks| ==> chunks[i] > 0
    ensures ChannelWrite(s, chunks) == (s, true)
    decreases |s|
  {
    if s != "" && chunks != [] {
      var n := if chunks[0] < |s| then chunks[0] else |s|;
      ChannelTakesAll(s[n..], chunks[1..]);
      assert s[..n] + s[n..] == s;
    }
  }

  /** Sending in an open state: the body goes out, or a beginning of it and the call fails. */
  lemma SendIs(o: Output, body: string, stream: bool, w: World)
    requires Open(o)
    ensures var (o', ok) := Send(o, body, stream, w);
            && o' == o.(channel := o'.channel, wire := o'.wire, expires := o'.expires)
            && (ok ==> Gone(o', o.chan) == Gone(o, o.chan) + body)
            && (exists sent :: sent <= body && Gone(o', o.chan) == Gone(o, o.chan) + sent)
            && (WorldSucceeds(w) ==> ok)
  {
    var (o', ok) := Send(o, body, stream, w);
    if o.chan {
      ChannelTakesPrefix(body, w.chunks);
      if WorldSucceeds(w) {
        ChannelTakesAll(body, w.chunks);
      }
      assert Gone(o', o.chan) == Gone(o, o.chan) + ChannelWrite(body, w.chunks).0;
    } else if ok {
      assert o'.wire[..|o'.wire| - 1] == o.wire;
      assert Gone(o', o.chan) == Gone(o, o.chan) + body;
    } else {
      assert Gone(o', o.chan) == Gone(o, o.chan) + "";
    }
  }

  // ----- streaming refines buffering

  /**
   * A page that began when `base` had gone out, and that trims if `trim`, has appended `text`
   * so far: what has gone out and what a flush would send make up the expected text.
   */
  ghost predicate Good(o: Output, base: string, chan: bool, trim: bool, text: string) {
    && Open(o) && o.chan == chan && o.exception != Abort
    && (trim ==> o.flags.trim)
    && (!trim && o.flags.trim ==> o.flags.flushed)
    && Gone(o, chan) + Body(o) == base + Expected(trim, text)
    && (trim && !o.flags.flushed ==> Gone(o, chan) == base && TrimLeft(o.output) == TrimLeft(text))
    && (trim && o.flags.flushed ==> TrimLeft(text) != "")
  }

  /** The page was aborted after a failed write: what went out is a beginning of the expected text. */
  ghost predicate CutOff(o: Output, base: string, chan: bool, trim: bool, text: string) {
    o.conn.Some? && o.chan == chan && o.exception == Abort && Gone(o, chan) <= base + Expected(trim, text)
  }

  lemma DeliverKeeps(o: Output, stream: bool, w: World, base: string, chan: bool, trim: bool, text: string)
    requires Good(o, base, chan, trim, text) && (WorldSucceeds(w) || o.flags.autoabort)
    ensures var (o', ok) := Deliver(o, Body(o), stream, w);
            && o'.flags.autoabort == o.flags.autoabort && (WorldSucceeds(w) ==> ok)
            && (ok ==> Gone(o', chan) == base + Expected(trim, text))
            && (ok && stream ==> Good(o'.(output := ""), base, chan, trim, text))
            && (!ok ==> CutOff(o', base, chan, trim, text))
  {
    hide Send, Gone, TrimLeft;
    var body := Body(o);
    SendIs(o, body, stream, w);
    assert TrimLeft("") == "" by { TrimNothing(); }
    var (o', ok) := Deliver(o, body, stream, w);
    if body == "" && stream {
      assert Gone(o, chan) + "" == Gone(o, chan);
      GoneIs(o, o'.(output := ""), chan);
    } else {
      var (s, ok1) := Send(o, body, stream, w);
      GoneIs(s, o', chan);
      GoneIs(s, o'.(output := ""), chan);
      assert Gone(o', chan) + "" == Gone(o', chan);
    }
  }

  lemma TrimNothing()
    ensures TrimLeft("") == ""
  {
  }

  lemma GoneIs(a: Output, b: Output, chan: bool)
    requires a.wire == b.wire && a.channel == b.channel
    ensures Gone(a, chan) == Gone(b, chan)
  {
  }

  /** A flush while the page runs. */
  lemma FlushKeeps(o: Output, d: Defaults, w: World, base: string, chan: bool, trim: bool, text: string)
    requires Good(o, base, chan, trim, text) && (WorldSucceeds(w) || o.flags.autoabort)
    ensures var o' := Flush(o, true, d, w).0;
            && o'.flags.autoabort == o.flags.autoabort && o'.inner == o.inner
            && (Good(o', base, chan, trim, text) || (!WorldSucceeds(w) && CutOff(o', base, chan, trim, text)))
  {
    hide Deliver, Gone, TrimLeft, Body;
    DeliverKeeps(o, true, w, base, chan, trim, text);
    var (o1, ok) := Deliver(o, Body(o), true, w);
    DeliverFrame(o, Body(o), true, w);
    GoneIs(o1, o1.(output := ""), chan);
  }

  lemma DeliverFrame(o: Output, body: string, stream: bool, w: World)
    requires o.conn.Some?
    ensures Deliver(o, body, stream, w).0.inner == o.inner
  {
    hide ChannelWrite;
  }

  /** The last flush. */
  lemma FinalFlush(o: Output, d: Defaults, w: World, base: string, chan: bool, trim: bool, text: string)
    requires Good(o, base, chan, trim, text) && (WorldSucceeds(w) || o.flags.autoabort)
    ensures var gone := Gone(Flush(o, false, d, w).0, chan);
            && gone <= base + Expected(trim, text)
            && (WorldSucceeds(w) ==> gone == base + Expected(trim, text))
  {
    hide Deliver, Gone, TrimLeft;
    DeliverKeeps(o, false, w, base, chan, trim, text);
    var o' := Flush(o, false, d, w).0;
    var (o1, ok) := Deliver(o, Body(o), false, w);
    if o.output == "" && o.flags.flushed {
      assert Gone(o, chan) + "" == Gone(o, chan);
      GoneIs(o, o', chan);
    } else {
      GoneIs(o1, o', chan);
    }
  }

  /** Appending to the buffer, before any flush. */
  lemma BufferKeeps(o: Output, s: string, base: string, chan: bool, trim: bool, text: string)
    requires Good(o, base, chan, trim, text)
    ensures Good(o.(output := o.output + s), base, chan, trim, text + s)
  {
    hide TrimLeft, Gone;
    TrimConcat(o.output, s);
    TrimConcat(text, s);
    var o' := o.(output := o.output + s);
    GoneIs(o, o', chan);
    if trim && !o.flags.flushed {
    } else {
      assert Gone(o, chan) + (o.output + s) == (Gone(o, chan) + o.output) + s;
      assert base + (Expected(trim, text) + s) == (base + Expected(trim, text)) + s;
    }
  }

  /** The part of the text that one operation appends. */
  function Now(o: Output, op: Op): string {
    if op.OpAppend? && o.inner.None? then op.s else ""
  }

  lemma StepKeeps(o: Output, op: Op, d: Defaults, base: string, chan: bool, trim: bool, text: string)
    requires Good(o, base, chan, trim, text) && (OpSucceeds(op) || o.flags.autoabort)
    ensures var o', text' := Step(o, op, d), text + Now(o, op);
            && o'.flags.autoabort == o.flags.autoabort
            && o'.inner.Some? == (if op.OpFrame? then op.inner.Some? else o.inner.Some?)
            && (Good(o', base, chan, trim, text') || (!OpSucceeds(op) && CutOff(o', base, chan, trim, text')))
  {
    hide Good, CutOff, Flush, WorldSucceeds, Append;
    assert text + "" == text;
    match op {
      case OpAppend(s, w) => AppendKeeps(o, s, d, w, base, chan, trim, text);
      case OpFlush(w) => FlushKeeps(o, d, w, base, chan, trim, text);
      case OpStream(on) => GoodFrame(o, Step(o, op, d), base, chan, trim, text);
      case OpBufsize(size) => GoodFrame(o, Step(o, op, d), base, chan, trim, text);
      case OpFrame(inner) => GoodFrame(o, Step(o, op, d), base, chan, trim, text);
    }
  }

  lemma AppendKeeps(o: Output, s: string, d: Defaults, w: World, base: string, chan: bool, trim: bool, text: string)
    requires Good(o, base, chan, trim, text) && (WorldSucceeds(w) || o.flags.autoabort)
    ensures var o', text' := Append(o, s, d, w).0, if o.inner.None? then text + s else text;
            && o'.flags.autoabort == o.flags.autoabort && o'.inner.Some? == o.inner.Some?
            && (Good(o', base, chan, trim, text') || (!WorldSucceeds(w) && CutOff(o', base, chan, trim, text')))
  {
    hide Good, CutOff, Flush, WorldSucceeds;
    GoodIsOpen(o, base, chan, trim, text);
    if o.inner.None? {
      BufferKeeps(o, s, base, chan, trim, text);
      FlushKeeps(o.(output := o.output + s), d, w, base, chan, trim, text + s);
    } else {
      var o1 := o.(inner := Some(o.inner.value + s));
      GoodFrame(o, o1, base, chan, trim, text);
      FlushKeeps(o1, d, w, base, chan, trim, text);
    }
  }

  lemma GoodIsOpen(o: Output, base: string, chan: bool, trim: bool, text: string)
    requires Good(o, base, chan, trim, text)
    ensures Open(o)
  {
  }

  lemma GoodFrame(o: Output, o': Output, base: string, chan: bool, trim: bool, text: string)
    requires Good(o, base, chan, trim, text)
    requires o' == o.(inner := o'.inner, bufsize := o'.bufsize, flags := o.flags.(stream := o'.flags.stream))
    ensures Good(o', base, chan, trim, text)
  {
    hide TrimLeft;
  }

  /** Once aborted, nothing more goes out. */
  lemma CutOffKeeps(o: Output, op: Op, d: Defaults, base: string, chan: bool, trim: bool, text: string)
    requires CutOff(o, base, chan, trim, text)
    ensures CutOff(Step(o, op, d), base, chan, trim, text + Now(o, op))
  {
    hide TrimLeft, Step, Gone;
    TrimConcat(text, Now(o, op));
    assert Expected(trim, text) <= Expected(trim, text + Now(o, op));
    var e, e' := base + Expected(trim, text), base + Expected(trim, text + Now(o, op));
    assert e <= e' by {
      assert e' == e + e'[|e|..];
    }
    AbortedStep(o, op, d);
    GoneIs(o, Step(o, op, d), chan);
  }

  lemma AbortedStep(o: Output, op: Op, d: Defaults)
    requires o.conn.Some? && o.exception == Abort
    ensures var o' := Step(o, op, d);
            && o'.conn == o.conn && o'.chan == o.chan && o'.exception == Abort
            && o'.wire == o.wire && o'.channel == o.channel
  {
    hide Flush;
    match op {
      case OpAppend(s, w) =>
        AbortedFlush(if o.inner.None? then o.(output := o.output + s) else o.(inner := Some(o.inner.value + s)), d, w);
      case OpFlush(w) => AbortedFlush(o, d, w);
      case _ =>
    }
  }

  lemma {:induction false} RunKeeps(o: Output, ops: seq<Op>, d: Defaults, base: string, chan: bool, trim: bool, text: string)
    requires Good(o, base, chan, trim, text) || (o.flags.autoabort && CutOff(o, base, chan, trim, text))
    requires o.flags.autoabort || forall i :: 0 <= i < |ops| ==> OpSucceeds(ops[i])
    ensures var o', text' := Run(o, ops, d), text + Appended(o.inner.Some?, ops);
            && o'.flags.autoabort == o.flags.autoabort
            && (Good(o', base, chan, trim, text') || (o.flags.autoabort && CutOff(o', base, chan, trim, text')))
            && (Good(o, base, chan, trim, text) && (forall i :: 0 <= i < |ops| ==> OpSucceeds(ops[i]))
                ==> Good(o', base, chan, trim, text'))
    decreases |ops|
  {
    hide Good, CutOff, Step, OpSucceeds;
    if ops == [] {
      assert text + "" == text;
    } else {
      var o1 := Step(o, ops[0], d);
      var text1 := text + Now(o, ops[0]);
      if Good(o, base, chan, trim, text) {
        StepKeeps(o, ops[0], d, base, chan, trim, text);
      } else {
        CutOffKeeps(o, ops[0], d, base, chan, trim, text);
        CutOffFrame(o, ops[0], d, base, chan, trim, text);
      }
      var rest := Appended(o1.inner.Some?, ops[1..]);
      assert text1 + rest == text + (Now(o, ops[0]) + rest);
      assert Appended(o.inner.Some?, ops) == Now(o, ops[0]) + rest;
      RunKeeps(o1, ops[1..], d, base, chan, trim, text1);
    }
  }

  lemma CutOffFrame(o: Output, op: Op, d: Defaults, base: string, chan: bool, trim: bool, text: string)
    requires CutOff(o, base, chan, trim, text)
    ensures var o' := Step(o, op, d);
            && o'.flags.autoabort == o.flags.autoabort
            && o'.inner.Some? == (if op.OpFrame? then op.inner.Some? else o.inner.Some?)
  {
    hide TrimLeft, Gone, Flush;
    match op {
      case OpAppend(s, w) =>
        AbortedFlush(if o.inner.None? then o.(output := o.output + s) else o.(inner := Some(o.inner.value + s)), d, w);
      case OpFlush(w) => AbortedFlush(o, d, w);
      case _ =>
    }
  }

  /** A flush after an abort only empties the buffer. */
  lemma AbortedFlush(o: Output, d: Defaults, w: World)
    requires o.conn.Some? && o.exception == Abort
    ensures Flush(o, true, d, w).0 == o.(output := "")
  {
    hide TrimLeft, Send;
  }

  /** The state at the beginning of a page. */
  lemma BeginsGood(o: Output)
    requires Open(o) && o.exception != Abort && o.output == ""
    ensures Good(o, Gone(o, o.chan), o.chan, o.flags.trim && !o.flags.flushed, "")
  {
  }

  /**
   * Streaming refines buffering: whatever the buffer size and the stream flag are, however
   * they change, and whenever the page is flushed in between, what goes out in the end is the
   * appended text, trimmed on the left once if trimming is on.
   */
  lemma StreamingRefinesBuffering(o: Output, ops: seq<Op>, d: Defaults, w: World)
    requires Open(o) && o.exception != Abort && o.output == ""
    requires WorldSucceeds(w) && forall i :: 0 <= i < |ops| ==> OpSucceeds(ops[i])
    ensures Gone(Page(o, ops, d, w), o.chan)
         == Gone(o, o.chan) + Expected(o.flags.trim && !o.flags.flushed, Appended(o.inner.Some?, ops))
  {
    hide Good, CutOff, Run, Flush, OpSucceeds, TrimLeft, Gone, Appended, Open, Expected, WorldSucceeds;
    var base, trim := Gone(o, o.chan), o.flags.trim && !o.flags.flushed;
    BeginsGood(o);
    RunKeeps(o, ops, d, base, o.chan, trim, "");
    var text := Appended(o.inner.Some?, ops);
    NothingBefore(text);
    FinalFlush(Run(o, ops, d), d, w, base, o.chan, trim, text);
  }

  lemma NothingBefore(text: string)
    ensures "" + text == text
  {
  }

  /** With autoabort, whichever writes fail: what goes out is a beginning of that text. */
  lemma AutoabortCutsOff(o: Output, ops: seq<Op>, d: Defaults, w: World)
    requires Open(o) && o.exception != Abort && o.output == "" && o.flags.autoabort
    ensures Gone(Page(o, ops, d, w), o.chan)
         <= Gone(o, o.chan) + Expected(o.flags.trim && !o.flags.flushed, Appended(o.inner.Some?, ops))
  {
    hide Good, Run, OpSucceeds, TrimLeft, Gone, Appended, Expected;
    var base, trim := Gone(o, o.chan), o.flags.trim && !o.flags.flushed;
    BeginsGood(o);
    RunKeeps(o, ops, d, base, o.chan, trim, "");
    var text := Appended(o.inner.Some?, ops);
    NothingBefore(text);
    var o1 := Run(o, ops, d);
    if Good(o1, base, o.chan, trim, text) {
      FinalFlush(o1, d, w, base, o.chan, trim, text);
    } else {
      GoneIs(o1, Flush(o1, false, d, w).0, o.chan);
    }
  }

  lemma {:induction false} RunFrame(o: Output, ops: seq<Op>, d: Defaults)
    ensures Run(o, ops, d).conn == o.conn && Run(o, ops, d).active == o.active
    decreases |ops|
  {
    hide Step;
    if ops != [] {
      StepFrame(o, ops[0], d);
      RunFrame(Step(o, ops[0], d), ops[1..], d);
    }
  }

  lemma StepFrame(o: Output, op: Op, d: Defaults)
    ensures Step(o, op, d).conn == o.conn && Step(o, op, d).active == o.active
  {
    hide Flush;
    match op {
      case OpAppend(s, w) =>
        FlushFrame(if o.inner.None? then o.(output := o.output + s) else o.(inner := Some(o.inner.value + s)), true, d, w);
      case OpFlush(w) => FlushFrame(o, true, d, w);
      case _ =>
    }
  }

  lemma FlushFrame(o: Output, stream: bool, d: Defaults, w: World)
    ensures Flush(o, stream, d, w).0.conn == o.conn && Flush(o, stream, d, w).0.active == o.active
  {
    hide TrimLeft, ChannelWrite;
  }

  /**
   * Whatever happened to a page that had a connection, aborts and failed writes included, the
   * next one begins with an empty buffer, no exception, no channel and the server's
   * settings: so it is sent as the server's flags say, with nothing left over from this one.
   */
  lemma NextPageIsFresh(o: Output, ops: seq<Op>, d: Defaults, w: World, ops': seq<Op>, w': World)
    requires o.conn.Some? && o.active && !o.conn.value.viaWriter && !o.conn.value.closed && !o.conn.value.skipBody
    requires WorldSucceeds(w') && forall i :: 0 <= i < |ops'| ==> OpSucceeds(ops'[i])
    ensures var first := Page(o, ops, d, w);
            && first.output == "" && first.flags == d.flags && first.bufsize == d.bufsize
            && Bodies(Page(first, ops', d, w').wire) ==
                 Bodies(first.wire) + Expected(d.flags.trim && !d.flags.flushed, Appended(first.inner.Some?, ops'))
  {
    hide Run, TrimLeft, Deliver, OpSucceeds, Appended, Expected, Bodies;
    RunFrame(o, ops, d);
    FlushFrame(Run(o, ops, d), false, d, w);
    StreamingRefinesBuffering(Page(o, ops, d, w), ops', d, w');
  }

  // ----- when nothing goes out, and when the buffer is emptied

  /** The connection or the page lets nothing out. */
  predicate Silent(o: Output) {
    o.conn.None? || o.exception == Abort || o.conn.value.viaWriter
    || (!o.chan && (o.conn.value.closed || o.conn.value.skipBody))
  }

  lemma SilentFlush(o: Output, stream: bool, d: Defaults, w: World)
    requires Silent(o)
    ensures var o' := Flush(o, stream, d, w).0;
            o'.channel == o.channel && Bodies(o'.wire) == Bodies(o.wire) && (stream ==> Silent(o') && o'.chan == o.chan)
  {
    hide Deliver, Bodies;
    if o.conn.Some? {
      SilentDeliver(o, Body(o), stream, w);
    }
  }

  lemma SilentDeliver(o: Output, body: string, stream: bool, w: World)
    requires Silent(o) && o.conn.Some?
    ensures var o' := Deliver(o, body, stream, w).0;
            o'.channel == o.channel && Bodies(o'.wire) == Bodies(o.wire) && o'.chan == o.chan && Silent(o')
  {
    hide ChannelWrite;
    var o' := Deliver(o, body, stream, w).0;
    if o'.wire != o.wire {
      assert o'.wire[..|o'.wire| - 1] == o.wire;
    }
  }

  lemma {:induction false} SilentRun(o: Output, ops: seq<Op>, d: Defaults)
    requires Silent(o)
    ensures var o' := Run(o, ops, d);
            Silent(o') && o'.channel == o.channel && Bodies(o'.wire) == Bodies(o.wire)
    decreases |ops|
  {
    hide Flush, Bodies;
    if ops != [] {
      match ops[0] {
        case OpAppend(s, w) =>
          SilentFlush(if o.inner.None? then o.(output := o.output + s) else o.(inner := Some(o.inner.value + s)), true, d, w);
        case OpFlush(w) => SilentFlush(o, true, d, w);
        case _ =>
      }
      SilentRun(Step(o, ops[0], d), ops[1..], d);
    }
  }

  /** Without a connection, after an abort, or when the connection takes no body, no text goes out. */
  lemma SilentSendsNothing(o: Output, ops: seq<Op>, d: Defaults, w: World)
    requires Silent(o)
    ensures var o' := Page(o, ops, d, w); o'.channel == o.channel && Bodies(o'.wire) == Bodies(o.wire)
  {
    hide Flush, Run, Bodies;
    SilentRun(o, ops, d);
    SilentFlush(Run(o, ops, d), false, d, w);
  }

  /** A flush empties the buffer if and only if there is a connection or nothing in the buffer. */
  lemma FlushEmptiesIff(o: Output, stream: bool, d: Defaults, w: World)
    ensures Flush(o, stream, d, w).0.output == "" <==> (o.conn.Some? || o.output == "")
  {
    hide Deliver;
  }

  /** There is no connection, the page was aborted, or a write that is due fails. */
  predicate Hopeless(o: Output, stream: bool, w: World) {
    || o.conn.None?
    || (&& !(o.output == "" && o.flags.flushed)
        && (|| o.exception == Abort
            || (&& !o.conn.value.viaWriter && !(Body(o) == "" && stream)
                && if o.chan then !ChannelWrite(Body(o), w.chunks).1 else !o.conn.value.closed && !w.ok)))
  }

  /** A flush fails exactly in these cases. */
  lemma FlushFailsIff(o: Output, stream: bool, d: Defaults, w: World)
    ensures !Flush(o, stream, d, w).1 <==> Hopeless(o, stream, w)
  {
    hide TrimLeft, ChannelWrite;
  }

  /** An append fails exactly if no page is active, or if it has to flush and the flush fails. */
  lemma AppendFailsIff(o: Output, s: string, d: Defaults, w: World)
    ensures var grown := if o.inner.Some? then |o.inner.value| + |s| else |o.output| + |s|;
            !Append(o, s, d, w).1 <==>
              || !o.active
              || (&& (o.flags.stream || grown > o.bufsize)
                  && Hopeless(if o.inner.Some? then o else o.(output := o.output + s), true, w))
  {
    hide Flush, TrimLeft, ChannelWrite;
    var o1 := if o.inner.None? then o.(output := o.output + s) else o.(inner := Some(o.inner.value + s));
    FlushFailsIff(o1, true, d, w);
  }

  /** The documentation says that the buffer is emptied in all cases; without a connection it is not. */
  lemma FlushMayKeepBuffer(d: Defaults, w: World)
    ensures var flags := Flags(false, false, false, false, false);
            var o := Output(None, false, NoException, flags, 0, true, None, "a", [], "", false);
            Flush(o, false, d, w) == (o, false)
  {
  }

  // ----- when text goes out

  /**
   * An append flushes if and only if the page streams or the buffer it appends to has grown
   * over its limit; otherwise the text stays in that buffer.
   */
  lemma AppendFlushesIff(o: Output, s: string, d: Defaults, w: World)
    requires o.conn.Some? && o.active
    ensures var o' := Append(o, s, d, w).0;
            var grown := if o.inner.Some? then |o.inner.value| + |s| else |o.output| + |s|;
            && o'.inner == (if o.inner.Some? then Some(o.inner.value + s) else None)
            && o'.output == if o.flags.stream || grown > o.bufsize then ""
                            else if o.inner.Some? then o.output else o.output + s
  {
    hide Flush;
    var o1 := if o.inner.None? then o.(output := o.output + s) else o.(inner := Some(o.inner.value + s));
    FlushEmptiesIff(o1, true, d, w);
    FlushInner(o1, d, w);
  }

  lemma FlushInner(o: Output, d: Defaults, w: World)
    ensures Flush(o, true, d, w).0.inner == o.inner
  {
    hide TrimLeft, ChannelWrite;
  }

  /**
   * After every append that flushes, in every run in which writes succeed, all that was
   * appended so far has gone out: with the stream flag on this is every append.
   */
  lemma StreamedAtOnce(o: Output, ops: seq<Op>, s: string, d: Defaults, w: World)
    requires Open(o) && o.exception != Abort && o.output == ""
    requires WorldSucceeds(w) && forall i :: 0 <= i < |ops| ==> OpSucceeds(ops[i])
    requires var r := Run(o, ops, d); r.inner.None? && (r.flags.stream || |r.output| + |s| > r.bufsize)
    ensures Gone(Append(Run(o, ops, d), s, d, w).0, o.chan)
         == Gone(o, o.chan) + Expected(o.flags.trim && !o.flags.flushed, Appended(o.inner.Some?, ops) + s)
  {
    hide CutOff, Run, Flush, Append, OpSucceeds, TrimLeft, Gone, Appended, Expected, WorldSucceeds;
    var base, trim := Gone(o, o.chan), o.flags.trim && !o.flags.flushed;
    BeginsGood(o);
    RunKeeps(o, ops, d, base, o.chan, trim, "");
    var text := Appended(o.inner.Some?, ops);
    NothingBefore(text);
    var r := Run(o, ops, d);
    AppendKeeps(r, s, d, w, base, o.chan, trim, text);
    AppendFlushesIff(r, s, d, w);
    TrimNothing();
    var o' := Append(r, s, d, w).0;
    assert Body(o') == "";
    assert Gone(o', o.chan) + "" == Gone(o', o.chan);
  }

  /** A flush has something to send, and may send it. */
  predicate Due(o: Output, stream: bool) {
    && o.conn.Some? && (o.output != "" || !o.flags.flushed) && o.exception != Abort
    && !o.conn.value.viaWriter && (Body(o) != "" || !stream)
  }

  /** What one flush sends where, how the write is marked, and what it leaves. */
  lemma FlushSends(o: Output, stream: bool, d: Defaults, w: World)
    ensures var (o', ok) := Flush(o, stream, d, w);
            var toConn := Due(o, stream) && !o.chan && !o.conn.value.closed;
            && o'.wire == (if toConn && w.ok then o.wire + [Write(if o.conn.value.skipBody then "" else Body(o), stream)] else o.wire)
            && o'.channel == (if Due(o, stream) && o.chan then o.channel + ChannelWrite(Body(o), w.chunks).0 else o.channel)
            && o'.expires == (o.expires || (toConn && o.flags.expire && !o.flags.flushed))
            && (stream ==> && o'.flags == o.flags.(flushed := o.flags.flushed || Due(o, stream))
                           && o'.exception == if Due(o, stream) && !ok && o.flags.autoabort then Abort else o.exception)
  {
    hide TrimLeft, ChannelWrite;
  }

  /** The writes from position `n` on are marked as parts of a stream. */
  ghost predicate Streamed(wire: seq<Write>, n: nat) {
    forall i :: n <= i < |wire| ==> wire[i].stream
  }

  lemma {:induction false} RunIsStreamed(o: Output, ops: seq<Op>, d: Defaults, n: nat)
    requires n <= |o.wire| && Streamed(o.wire, n)
    ensures var o' := Run(o, ops, d); o.wire <= o'.wire && Streamed(o'.wire, n)
    decreases |ops|
  {
    hide Flush, Body;
    if ops != [] {
      match ops[0] {
        case OpAppend(s, w) =>
          FlushSends(if o.inner.None? then o.(output := o.output + s) else o.(inner := Some(o.inner.value + s)), true, d, w);
        case OpFlush(w) => FlushSends(o, true, d, w);
        case _ =>
      }
      RunIsStreamed(Step(o, ops[0], d), ops[1..], d, n);
    }
  }

  /** Of the writes of a page all but the one of the last flush are marked as parts of a stream. */
  lemma LastWriteIsNotStreamed(o: Output, ops: seq<Op>, d: Defaults, w: World)
    ensures var r, o' := Run(o, ops, d), Page(o, ops, d, w);
            && o.wire <= r.wire && Streamed(r.wire, |o.wire|)
            && (o'.wire == r.wire || (|o'.wire| == |r.wire| + 1 && r.wire <= o'.wire && !o'.wire[|r.wire|].stream))
  {
    hide Flush, Run, Body;
    RunIsStreamed(o, ops, d, |o.wire|);
    FlushSends(Run(o, ops, d), false, d, w);
  }
}
