/** What the response reader of nscgi/nscgi.c does with whole responses. */
module CgiLaws {
  import opened Prelude
  import opened Chars
  import opened Cgi

  // ----- the status

  /** The header with a colon that a line holds, if any. */
  function FieldOf(line: string): Option<(string, string)> {
    var c := CStr(line);
    if c != "" && IsSpace(c[0]) then None
    else
      var i := Find(c, 0, ':');
      if i == |c| then None else Some((c[..i], TrimLeft(c[i + 1..])))
  }

  /** All such headers that the loop meets, in order. */
  function Fields(v: Server, h: Head, s: string): seq<(string, string)>
    requires HeadOk(h)
    decreases |s|
  {
    var line := NextLine(h.ds, s);
    if line.None? || line.value.0 == "" then []
    else
      var f := FieldOf(line.value.0);
      (if f.Some? then [f.value] else []) + Fields(v, TakeLine(v, h, line.value.0), line.value.1)
  }

  function LastStatus(fields: seq<(string, string)>): Option<string> {
    if fields == [] then None
    else
      var later := LastStatus(fields[1..]);
      if later.Some? then later else if Lower(fields[0].0) == "status" then Some(fields[0].1) else None
  }

  predicate HasLocation(fields: seq<(string, string)>) {
    exists i :: 0 <= i < |fields| && Lower(fields[i].0) == "location"
  }

  /** The rule, for a loop that has come to `h`. */
  function Ruled(v: Server, h: Head, fields: seq<(string, string)>): int {
    match LastStatus(fields)
    case Some(x) => v.number(x)
    case None => if !h.provided && HasLocation(fields) then 302 else h.status
  }

  lemma RuledNothing(v: Server, h: Head)
    ensures Ruled(v, h, []) == h.status
  {
  }

  lemma RuledStep(v: Server, h: Head, h': Head, f: (string, string), rest: seq<(string, string)>)
    requires h'.provided == (h.provided || Lower(f.0) == "status")
    requires h'.status == if Lower(f.0) == "status" then v.number(f.1)
                          else if Lower(f.0) == "location" && !h.provided then 302 else h.status
    ensures Ruled(v, h, [f] + rest) == Ruled(v, h', rest)
  {
    var fields := [f] + rest;
    assert fields[1..] == rest;
    if HasLocation(rest) {
      var i :| 0 <= i < |rest| && Lower(rest[i].0) == "location";
      assert fields[i + 1] == rest[i];
    }
    if Lower(f.0) == "location" {
      assert fields[0] == f;
    } else if HasLocation(fields) {
      var i :| 0 <= i < |fields| && Lower(fields[i].0) == "location";
      assert fields[i] == rest[i - 1];
    }
  }

  lemma TakeLineStatus(v: Server, h: Head, line: string)
    requires HeadOk(h)
    ensures var h', f := TakeLine(v, h, line), FieldOf(line);
            && (f.None? ==> h'.provided == h.provided && h'.status == h.status)
            && (f.Some? ==>
                  && h'.provided == (h.provided || Lower(f.value.0) == "status")
                  && h'.status == if Lower(f.value.0) == "status" then v.number(f.value.1)
                                  else if Lower(f.value.0) == "location" && !h.provided then 302 else h.status)
  {
    hide Lower, TrimLeft, CStr;
  }

  lemma {:induction false} StatusOfLoop(v: Server, h: Head, s: string)
    requires HeadOk(h)
    ensures ReadHead(v, h, s).head.status == Ruled(v, h, Fields(v, h, s))
    decreases |s|
  {
    hide TakeLine, Ruled, FieldOf;
    var line := NextLine(h.ds, s);
    if line.None? || line.value.0 == "" {
      RuledNothing(v, h);
    } else {
      var (text, rest) := line.value;
      var h' := TakeLine(v, h, text);
      NextLineShrinks(h.ds, s);
      StatusOfLoop(v, h', rest);
      TakeLineStatus(v, h, text);
      var more := Fields(v, h', rest);
      if FieldOf(text).Some? {
        RuledStep(v, h, h', FieldOf(text).value, more);
      } else {
        assert Fields(v, h, s) == [] + more == more;
        RuledSame(v, h, h', more);
      }
    }
  }

  lemma RuledSame(v: Server, h: Head, h': Head, fields: seq<(string, string)>)
    requires h'.provided == h.provided && h'.status == h.status
    ensures Ruled(v, h, fields) == Ruled(v, h', fields)
  {
  }

  /** For every response: the last Status, else 302 if there is a Location, else 200, in whatever order. */
  lemma StatusRule(v: Server, headers: Headers, s: string)
    ensures var h := Begin(headers);
            var fields := Fields(v, h, s);
            ReadHead(v, h, s).head.status ==
              match LastStatus(fields)
              case Some(x) => v.number(x)
              case None => if HasLocation(fields) then 302 else 200
  {
    StatusOfLoop(v, Begin(headers), s);
  }

  // ----- reading back a printed response

  /** A header and its continuation lines. */
  datatype Field = Field(name: string, value: string, more: seq<string>)

  /** No newline and no NUL. */
  predicate Clean(s: string) {
    forall i :: 0 <= i < |s| ==> s[i] != '\n' && s[i] != '\0'
  }

  predicate LineBlank(s: string) {
    forall i :: 0 <= i < |s| ==> IsSpace(s[i]) && s[i] != '\n'
  }

  predicate ContinuationOk(m: string) {
    Clean(m) && m != "" && IsSpace(m[0]) && !IsSpace(m[|m| - 1])
  }

  /** What a header needs in order to be read back; only headers that are kept can be continued. */
  predicate FieldOk(f: Field) {
    && Clean(f.name) && Clean(f.value) && Trimmed(f.value)
    && (f.name != "" ==> !IsSpace(f.name[0])) && (forall i :: 0 <= i < |f.name| ==> f.name[i] != ':')
    && (forall i :: 0 <= i < |f.more| ==> ContinuationOk(f.more[i]))
    && (Lower(f.name) == "status" ==> f.more == [])
  }

  /** `eol` is white space before the newline, such as a carriage return. */
  function PrintMore(more: seq<string>, eol: string): string {
    if more == [] then "" else more[0] + eol + "\n" + PrintMore(more[1..], eol)
  }

  function PrintField(f: Field, eol: string): string {
    f.name + ": " + f.value + eol + "\n" + PrintMore(f.more, eol)
  }

  function PrintAll(fields: seq<Field>, eol: string): string {
    if fields == [] then "" else PrintField(fields[0], eol) + PrintAll(fields[1..], eol)
  }

  function Joined(value: string, more: seq<string>): string
    decreases |more|
  {
    if more == [] then value else Joined(value + "\n" + more[0], more[1..])
  }

  /** The headers that a response leaves on the connection. */
  function Stored(v: Server, fields: seq<Field>): Headers {
    if fields == [] then []
    else
      var f := fields[0];
      (if Lower(f.name) == "status" then [] else [Kept(v, f)]) + Stored(v, fields[1..])
  }

  /** A header as it is kept: a Location on this server gets the server's address. */
  function Kept(v: Server, f: Field): (string, string) {
    var value := if Lower(f.name) == "location" && !v.relative && At(f.value, 0, '/')
                 then v.location + f.value else f.value;
    (f.name, Joined(value, f.more))
  }

  function Pairs(fields: seq<Field>): seq<(string, string)> {
    if fields == [] then [] else [(fields[0].name, fields[0].value)] + Pairs(fields[1..])
  }

  // ----- one line

  lemma {:induction false} TrimRightBlank(a: string, w: string)
    requires forall i :: 0 <= i < |w| ==> IsSpace(w[i])
    ensures TrimRight(a + w) == TrimRight(a)
    decreases |w|
  {
    if w == "" {
      assert a + w == a;
    } else {
      assert (a + w)[..|a + w| - 1] == a + w[..|w| - 1];
      TrimRightBlank(a, w[..|w| - 1]);
    }
  }

  /** A line without a newline in it is the next line. */
  lemma NextLineIs(ds: string, line: string, rest: string)
    requires forall i :: 0 <= i < |line| ==> line[i] != '\n'
    ensures NextLine(ds, line + "\n" + rest) == Some((TrimRight(ds + line), rest))
  {
    hide TrimRight;
    var s := line + "\n" + rest;
    assert s[|line|] == '\n' && forall i :: 0 <= i < |line| ==> s[i] == line[i];
    assert Find(s, 0, '\n') == |line|;
    assert s[..|line|] == line && s[|line| + 1..] == rest;
  }

  lemma ReadLineIs(v: Server, h: Head, line: string, eol: string, rest: string)
    requires HeadOk(h) && h.ds == "" && LineBlank(eol) && Clean(line) && line != "" && !IsSpace(line[|line| - 1])
    ensures ReadHead(v, h, line + eol + "\n" + rest) == ReadHead(v, TakeLine(v, h, line), rest)
  {
    hide TakeLine, NextLine;
    NextLineIs("", line + eol, rest);
    assert "" + (line + eol) == line + eol;
    TrimRightBlank(line, eol);
    NextLineShrinks("", line + eol + "\n" + rest);
  }

  lemma CleanIsC(s: string)
    requires Clean(s)
    ensures CStr(s) == s
  {
    assert Find(s, 0, '\0') == |s|;
  }

  /** A header line with a colon. */
  lemma TakeLineIs(v: Server, h: Head, name: string, gap: string, value: string)
    requires HeadOk(h) && Clean(name) && Clean(value) && Clean(gap) && LineBlank(gap)
    requires (name != "" ==> !IsSpace(name[0])) && (forall i :: 0 <= i < |name| ==> name[i] != ':')
    requires value != "" ==> !IsSpace(value[0])
    ensures TakeLine(v, h, name + ":" + gap + value) == TakeField(v, h, name, value)
  {
    hide TakeField, TrimLeft, CStr, Find, Clean;
    var line := name + ":" + gap + value;
    assert line == name + ":" + (gap + value);
    JoinClean(gap, "", value);
    JoinClean(name, ":", gap + value);
    CleanIsC(line);
    ColonSplits(name, gap + value);
    TrimBlank(gap);
    TrimConcat(gap, value);
    TrimStays(value);
    assert name != "" ==> line[0] == name[0];
  }

  lemma TrimStays(value: string)
    requires value != "" ==> !IsSpace(value[0])
    ensures TrimLeft(value) == value
  {
  }

  lemma ColonSplits(name: string, rest: string)
    requires forall i :: 0 <= i < |name| ==> name[i] != ':'
    ensures var line := name + ":" + rest;
            Find(line, 0, ':') == |name| && line[..|name|] == name && line[|name| + 1..] == rest && line[|name|] == ':'
  {
    hide Find;
    var line := name + ":" + rest;
    assert line[|name|] == ':' && forall i :: 0 <= i < |name| ==> line[i] == name[i];
  }

  lemma {:induction false} TrimBlank(w: string)
    requires LineBlank(w)
    ensures TrimLeft(w) == ""
  {
    if w != "" {
      TrimBlank(w[1..]);
    }
  }

  // ----- one header

  /** What a header with its continuation lines does to the loop. */
  function Continue(h: Head, more: seq<string>): Head
    requires 0 <= h.last < |h.headers| || more == []
    decreases |more|
  {
    if more == [] then h
    else
      var (name, value) := h.headers[h.last];
      Continue(h.(ds := "", lines := h.lines + 1, headers := h.headers[h.last := (name, value + "\n" + more[0])]), more[1..])
  }

  lemma {:induction false} ReadMore(v: Server, h: Head, more: seq<string>, eol: string, rest: string)
    requires HeadOk(h) && h.ds == "" && (h.last >= 0 || more == []) && LineBlank(eol)
    requires forall i :: 0 <= i < |more| ==> ContinuationOk(more[i])
    ensures HeadOk(Continue(h, more))
    ensures ReadHead(v, h, PrintMore(more, eol) + rest) == ReadHead(v, Continue(h, more), rest)
    decreases |more|
  {
    hide ReadHead;
    if more == [] {
      assert "" + rest == rest;
    } else {
      var tail := PrintMore(more[1..], eol);
      assert PrintMore(more, eol) + rest == more[0] + eol + "\n" + (tail + rest);
      ReadLineIs(v, h, more[0], eol, tail + rest);
      CleanIsC(more[0]);
      ReadMore(v, TakeLine(v, h, more[0]), more[1..], eol, rest);
    }
  }

  lemma ReadField(v: Server, h: Head, f: Field, eol: string, rest: string)
    requires HeadOk(h) && h.ds == "" && FieldOk(f) && LineBlank(eol)
    ensures var h' := TakeField(v, h, f.name, f.value);
            && (f.more == [] || h'.last >= 0) && HeadOk(h') && HeadOk(Continue(h', f.more))
            && ReadHead(v, h, PrintField(f, eol) + rest) == ReadHead(v, Continue(h', f.more), rest)
  {
    hide ReadHead, Lower, TakeLine, PrintMore, Continue, LineBlank, Clean;
    var h' := TakeField(v, h, f.name, f.value);
    var more := PrintMore(f.more, eol);
    if f.value == "" {
      var line := f.name + ":";
      assert PrintField(f, eol) + rest == line + (" " + eol) + "\n" + (more + rest);
      assert LineBlank(" " + eol) && Clean("") && Clean(line) && LineBlank("") by { JoinBlank(eol); JoinClean(f.name, ":", ""); }
      ReadLineIs(v, h, line, " " + eol, more + rest);
      TakeLineIs(v, h, f.name, "", "");
      assert line == f.name + ":" + "" + "";
    } else {
      var line := f.name + ":" + " " + f.value;
      assert PrintField(f, eol) + rest == line + eol + "\n" + (more + rest);
      assert Clean(line) && Clean(" ") && LineBlank(" ") by { JoinClean(f.name, ": ", f.value); assert line == f.name + ": " + f.value; JoinBlank(""); }
      ReadLineIs(v, h, line, eol, more + rest);
      TakeLineIs(v, h, f.name, " ", f.value);
    }
    ReadMore(v, h', f.more, eol, rest);
  }

  lemma JoinBlank(eol: string)
    requires LineBlank(eol)
    ensures LineBlank(" " + eol) && LineBlank("") && LineBlank(" ")
  {
  }

  lemma JoinClean(a: string, b: string, c: string)
    requires Clean(a) && Clean(c) && (b == ":" || b == ": " || b == "")
    ensures Clean(a + b) && Clean(a + b + c) && Clean(a + c) && Clean("") && Clean(" ")
  {
  }

  // ----- the whole response

  lemma {:induction false} ContinueIs(h: Head, more: seq<string>)
    requires HeadOk(h) && h.ds == "" && (h.last >= 0 || more == [])
    ensures var h' := Continue(h, more);
            && h' == h.(lines := h.lines + |more|, headers := h'.headers)
            && h'.headers == if more == [] then h.headers
                             else h.headers[h.last := (h.headers[h.last].0, Joined(h.headers[h.last].1, more))]
    decreases |more|
  {
    if more != [] {
      var (name, value) := h.headers[h.last];
      var h1 := h.(lines := h.lines + 1, headers := h.headers[h.last := (name, value + "\n" + more[0])]);
      ContinueIs(h1, more[1..]);
    }
  }

  /** One header: what it adds, and what it does to the status. */
  lemma TakeWhole(v: Server, h: Head, f: Field, rest: seq<Field>)
    requires HeadOk(h) && h.ds == "" && FieldOk(f)
    ensures var h1 := TakeField(v, h, f.name, f.value);
            && (h1.last >= 0 || f.more == []) && HeadOk(h1)
            && var h' := Continue(h1, f.more);
            && HeadOk(h') && h'.ds == "" && h'.lines > h.lines
            && h.headers + Stored(v, [f] + rest) == h'.headers + Stored(v, rest)
            && Ruled(v, h, Pairs([f] + rest)) == Ruled(v, h', Pairs(rest))
  {
    hide Lower, Ruled;
    var h1 := TakeField(v, h, f.name, f.value);
    ContinueIs(h1, f.more);
    var h' := Continue(h1, f.more);
    var all := [f] + rest;
    assert all[0] == f && all[1..] == rest;
    RuledStep(v, h, h', (f.name, f.value), Pairs(rest));
    StoredStep(v, h, f, rest);
  }

  lemma JoinedNothing()
    ensures forall x :: Joined(x, []) == x
  {
  }

  lemma LastReplaced(hs: Headers, a: (string, string), b: (string, string))
    ensures (hs + [a])[|hs| := b] == hs + [b]
  {
  }

  /** A header that is kept, with its continuation lines. */
  lemma KeptStep(v: Server, h: Head, f: Field)
    requires HeadOk(h) && Lower(f.name) != "status"
    ensures var h1 := TakeField(v, h, f.name, f.value);
            && h1.last >= 0 && HeadOk(h1) && Continue(h1, f.more).headers == h.headers + [Kept(v, f)]
  {
    hide Lower, Joined, Continue;
    var h1 := TakeField(v, h, f.name, f.value);
    ContinueIs(h1, f.more);
    JoinedNothing();
    LastReplaced(h.headers, h1.headers[h1.last], Kept(v, f));
  }

  lemma StoredStep(v: Server, h: Head, f: Field, rest: seq<Field>)
    requires HeadOk(h) && h.ds == "" && FieldOk(f)
    ensures var h1 := TakeField(v, h, f.name, f.value);
            && (h1.last >= 0 || f.more == []) && HeadOk(h1)
            && h.headers + Stored(v, [f] + rest) == Continue(h1, f.more).headers + Stored(v, rest)
  {
    hide Lower, Clean, Trimmed, ContinuationOk, Kept;
    StoredCons(v, f, rest);
    if Lower(f.name) != "status" {
      hide TakeField, Continue;
      KeptStep(v, h, f);
      assert h.headers + ([Kept(v, f)] + Stored(v, rest)) == (h.headers + [Kept(v, f)]) + Stored(v, rest);
    }
  }

  lemma StoredCons(v: Server, f: Field, rest: seq<Field>)
    ensures Stored(v, [f] + rest) == if Lower(f.name) == "status" then Stored(v, rest) else [Kept(v, f)] + Stored(v, rest)
  {
    hide Lower, Kept;
    var all := [f] + rest;
    assert all[0] == f && all[1..] == rest;
    assert [] + Stored(v, rest) == Stored(v, rest);
  }

  lemma {:induction false} ReadPrinted(v: Server, h: Head, fields: seq<Field>, eol: string, body: string)
    requires HeadOk(h) && h.ds == "" && LineBlank(eol) && forall i :: 0 <= i < |fields| ==> FieldOk(fields[i])
    ensures var e := ReadHead(v, h, PrintAll(fields, eol) + (eol + "\n" + body));
            && e.blank && e.rest == body
            && e.head.headers == h.headers + Stored(v, fields)
            && e.head.lines >= h.lines + |fields|
            && e.head.status == Ruled(v, h, Pairs(fields))
    decreases |fields|
  {
    hide Ruled, FieldOk, PrintField, Continue, TakeField;
    var end := eol + "\n" + body;
    if fields == [] {
      assert "" + end == end && h.headers + [] == h.headers;
      EndOfHeaders(v, h, eol, body);
      RuledNothing(v, h);
    } else {
      var f, rest := fields[0], fields[1..];
      assert fields == [f] + rest;
      var more := PrintAll(rest, eol) + end;
      assert PrintAll(fields, eol) + end == PrintField(f, eol) + more;
      ReadField(v, h, f, eol, more);
      TakeWhole(v, h, f, rest);
      ReadPrinted(v, Continue(TakeField(v, h, f.name, f.value), f.more), rest, eol, body);
    }
  }

  lemma EndOfHeaders(v: Server, h: Head, eol: string, body: string)
    requires HeadOk(h) && h.ds == "" && LineBlank(eol)
    ensures ReadHead(v, h, eol + "\n" + body) == End(h, true, body)
  {
    hide NextLine;
    NextLineIs("", eol, body);
    TrimRightBlank("", eol);
  }

  /**
   * A printed response is read back: its headers are put on the connection, its status
   * follows the rule, and the body is what follows the blank line, unchanged.
   */
  lemma ReadUndoesPrint(v: Server, headers: Headers, fields: seq<Field>, eol: string, body: string, fails: bool)
    requires fields != [] && LineBlank(eol) && forall i :: 0 <= i < |fields| ==> FieldOk(fields[i])
    ensures var status := match LastStatus(Pairs(fields))
                          case Some(x) => v.number(x)
                          case None => if HasLocation(Pairs(fields)) then 302 else 200;
            Respond(v, false, headers, PrintAll(fields, eol) + (eol + "\n" + body), fails)
              == Sent(Some(status), headers + Stored(v, fields), body)
  {
    hide ReadHead, FieldOk, PrintAll, Pairs, Stored, LastStatus, HasLocation;
    ReadPrinted(v, Begin(headers), fields, eol, body);
  }

  // ----- lines that are ignored

  /** The line is ignored when the loop is at `h`: a continuation of nothing, or no colon. */
  predicate Ignored(h: Head, line: string) {
    var c := CStr(line);
    if c != "" && IsSpace(c[0]) then h.last == -1 else Find(c, 0, ':') == |c|
  }

  /** The line buffer is empty, or it holds a line that was ignored. */
  predicate Pending(h: Head) {
    h.ds == "" || (!IsSpace(h.ds[|h.ds| - 1]) && Ignored(h, h.ds))
  }

  lemma {:induction false} TrimRightEnd(s: string)
    ensures TrimRight(s) == "" || !IsSpace(TrimRight(s)[|TrimRight(s)| - 1])
  {
    if s != "" && IsSpace(s[|s| - 1]) {
      TrimRightEnd(s[..|s| - 1]);
    }
  }

  /** An ignored line stays in the buffer; any other leaves it empty. */
  lemma PendingKept(v: Server, h: Head, ds: string)
    requires HeadOk(h) && TrimRight(ds) != ""
    ensures var line := TrimRight(ds);
            var h' := TakeLine(v, h, line);
            Pending(h') && h'.ds == if Ignored(h, line) then line else ""
  {
    hide Lower, TrimLeft, TrimRight;
    TrimRightEnd(ds);
  }

  /** A blank line ends the headers if the buffer is empty; otherwise it is skipped. */
  lemma BlankLine(v: Server, h: Head, w: string, rest: string)
    requires HeadOk(h) && Pending(h) && LineBlank(w)
    ensures ReadHead(v, h, w + "\n" + rest) == if h.ds == "" then End(h, true, rest) else ReadHead(v, h, rest)
  {
    hide NextLine, Lower, TrimRight;
    NextLineIs(h.ds, w, rest);
    TrimRightBlank(h.ds, w);
    TrimRightStays(h.ds);
    NextLineShrinks(h.ds, w + "\n" + rest);
  }

  /**
   * A blank line ends the headers if and only if the line before it was not ignored;
   * otherwise it is skipped, and reading goes on with the ignored line in the buffer.
   */
  lemma BlankLineEndsIff(v: Server, h: Head, line: string, w: string, blank: string, rest: string)
    requires HeadOk(h) && h.ds == "" && LineBlank(w) && LineBlank(blank)
    requires Clean(line) && line != "" && !IsSpace(line[|line| - 1])
    ensures ReadHead(v, h, line + w + "\n" + (blank + "\n" + rest)) ==
              if Ignored(h, line) then ReadHead(v, h.(ds := line), rest) else End(TakeLine(v, h, line), true, rest)
  {
    hide NextLine, TakeLine, TrimRight, ReadHead;
    ReadLineIs(v, h, line, w, blank + "\n" + rest);
    TrimRightStays(line);
    PendingKept(v, h, line);
    BlankLine(v, TakeLine(v, h, line), blank, rest);
    if Ignored(h, line) {
      IgnoredIs(v, h, line);
    }
  }

  /**
   * The same for a whole response: after any printed headers, a further line and a blank
   * line, the blank line ends the headers if and only if that line is not ignored; the body
   * is then what follows.
   */
  lemma BlankLineEndsResponseIff(
    v: Server, headers: Headers, fields: seq<Field>, eol: string, line: string, rest: string)
    requires LineBlank(eol) && forall i :: 0 <= i < |fields| ==> FieldOk(fields[i])
    requires Clean(line) && line != "" && !IsSpace(line[|line| - 1])
    ensures var h := ReadAll(v, Begin(headers), fields);
            && HeadOk(h) && h.ds == ""
            && ReadHead(v, Begin(headers), PrintAll(fields, eol) + (line + eol + "\n" + (eol + "\n" + rest))) ==
                 if Ignored(h, line) then ReadHead(v, h.(ds := line), rest) else End(TakeLine(v, h, line), true, rest)
  {
    hide ReadHead, TakeLine, Ignored, PrintAll, FieldOk;
    ReadsAll(v, Begin(headers), fields, eol, line + eol + "\n" + (eol + "\n" + rest));
    BlankLineEndsIff(v, ReadAll(v, Begin(headers), fields), line, eol, eol, rest);
  }

  /** The loop after a list of headers. */
  function ReadAll(v: Server, h: Head, fields: seq<Field>): Head
    requires HeadOk(h) && h.ds == "" && forall i :: 0 <= i < |fields| ==> FieldOk(fields[i])
    decreases |fields|
  {
    if fields == [] then h
    else
      TakeWhole(v, h, fields[0], []);
      ReadAll(v, Continue(TakeField(v, h, fields[0].name, fields[0].value), fields[0].more), fields[1..])
  }

  lemma {:induction false} ReadsAll(v: Server, h: Head, fields: seq<Field>, eol: string, rest: string)
    requires HeadOk(h) && h.ds == "" && LineBlank(eol) && forall i :: 0 <= i < |fields| ==> FieldOk(fields[i])
    ensures var h' := ReadAll(v, h, fields);
            && HeadOk(h') && h'.ds == ""
            && ReadHead(v, h, PrintAll(fields, eol) + rest) == ReadHead(v, h', rest)
    decreases |fields|
  {
    hide ReadHead, FieldOk, PrintField, Continue, TakeField;
    if fields == [] {
      assert "" + rest == rest;
    } else {
      var f := fields[0];
      var more := PrintAll(fields[1..], eol) + rest;
      assert PrintAll(fields, eol) + rest == PrintField(f, eol) + more;
      ReadField(v, h, f, eol, more);
      TakeWhole(v, h, f, []);
      ReadsAll(v, Continue(TakeField(v, h, f.name, f.value), f.more), fields[1..], eol, rest);
    }
  }

  lemma TrimRightStays(s: string)
    ensures s == "" || !IsSpace(s[|s| - 1]) ==> TrimRight(s) == s
  {
  }

  lemma {:induction false} TrimRightPrefix(s: string, i: nat)
    requires i < |s| && !IsSpace(s[i])
    ensures i < |TrimRight(s)| && TrimRight(s) <= s
  {
    if IsSpace(s[|s| - 1]) {
      TrimRightPrefix(s[..|s| - 1], i);
    }
  }

  /** What was in the buffer before does not matter once the line is complete. */
  lemma TakeLineForgets(v: Server, h: Head, ds: string, line: string)
    requires HeadOk(h)
    ensures TakeLine(v, h.(ds := ds), line) == TakeLine(v, h, line)
  {
    hide Lower, TrimLeft, CStr;
  }

  /** An ignored line is not dropped: it is joined with the line after it. */
  lemma IgnoredLineJoinsNext(v: Server, h: Head, line: string, w: string, next: string, rest: string)
    requires HeadOk(h) && h.ds == "" && Clean(line) && Clean(next) && LineBlank(w)
    requires line != "" && !IsSpace(line[|line| - 1]) && Ignored(h, line)
    ensures ReadHead(v, h, line + w + "\n" + (next + "\n" + rest)) == ReadHead(v, h, (line + next) + "\n" + rest)
  {
    hide NextLine, TakeLine, TrimRight;
    ReadLineIs(v, h, line, w, next + "\n" + rest);
    IgnoredIs(v, h, line);
    NextLineIs(line, next, rest);
    NextLineIs("", line + next, rest);
    assert "" + (line + next) == line + next;
    TrimRightPrefix(line + next, |line| - 1);
    TakeLineForgets(v, h, line, TrimRight(line + next));
    NextLineShrinks(line, next + "\n" + rest);
    NextLineShrinks("", (line + next) + "\n" + rest);
  }

  lemma IgnoredIs(v: Server, h: Head, line: string)
    requires HeadOk(h) && Ignored(h, line)
    ensures TakeLine(v, h, line) == h.(ds := line)
  {
    hide TakeField;
  }

  /** Once a line that begins with white space is in the buffer before any header, nothing is accepted any more. */
  lemma {:induction false} NothingAccepted(v: Server, h: Head, s: string)
    requires h.last == -1 && h.ds != "" && IsSpace(h.ds[0]) && !IsSpace(h.ds[|h.ds| - 1])
    ensures var e := ReadHead(v, h, s);
            !e.blank && e.head == h.(ds := e.head.ds)
    decreases |s|
  {
    hide TakeLine, TrimRight;
    var i := Find(s, 0, '\n');
    if i < |s| {
      var text := h.ds + s[..i];
      TrimRightPrefix(text, |h.ds| - 1);
      TrimRightEnd(text);
      var line := TrimRight(text);
      assert line[0] == text[0] == h.ds[0];
      StartsBlank(line);
      IgnoredIs(v, h, line);
      NothingAccepted(v, h.(ds := line), s[i + 1..]);
    }
  }

  lemma StartsBlank(line: string)
    requires line != "" && IsSpace(line[0])
    ensures CStr(line) != "" && IsSpace(CStr(line)[0])
  {
    assert line[0] != '\0';
  }

  /** A response whose first line begins with white space, but is not blank, is lost. */
  lemma LeadingSpaceLosesAll(v: Server, headers: Headers, line: string, w: string, rest: string, fails: bool)
    requires ContinuationOk(line) && LineBlank(w)
    ensures Respond(v, false, headers, line + w + "\n" + rest, fails) == if fails then InternalError(headers) else Failed
  {
    hide ReadHead, TakeLine;
    var h := Begin(headers);
    ReadLineIs(v, h, line, w, rest);
    StartsBlank(line);
    IgnoredIs(v, h, line);
    NothingAccepted(v, h.(ds := line), rest);
  }

  // ----- NUL bytes

  /** A NUL in a header line hides the rest of the line. */
  lemma NulEndsLine(
    v: Server, headers: Headers, fields: seq<Field>, f: Field, hidden: string, eol: string, rest: string, fails: bool)
    requires LineBlank(eol) && (forall i :: 0 <= i < |fields| ==> FieldOk(fields[i])) && FieldOk(f) && f.more == []
    requires forall i :: 0 <= i < |hidden| ==> hidden[i] != '\n'
    ensures Respond(v, false, headers, PrintAll(fields, eol) + (f.name + ": " + f.value + "\0" + hidden + "\n" + rest), fails)
            == Respond(v, false, headers, PrintAll(fields, eol) + (PrintField(f, eol) + rest), fails)
  {
    hide ReadHead, FieldOk, PrintAll, PrintField, ReadAll, TakeField;
    var h := ReadAll(v, Begin(headers), fields);
    ReadsAll(v, Begin(headers), fields, eol, f.name + ": " + f.value + "\0" + hidden + "\n" + rest);
    ReadsAll(v, Begin(headers), fields, eol, PrintField(f, eol) + rest);
    ReadField(v, h, f, eol, rest);
    HiddenField(v, h, f, hidden, rest);
    assert Continue(TakeField(v, h, f.name, f.value), f.more) == TakeField(v, h, f.name, f.value);
  }

  lemma HiddenField(v: Server, h: Head, f: Field, hidden: string, rest: string)
    requires HeadOk(h) && h.ds == "" && FieldOk(f) && forall i :: 0 <= i < |hidden| ==> hidden[i] != '\n'
    ensures HeadOk(TakeField(v, h, f.name, f.value))
    ensures ReadHead(v, h, f.name + ": " + f.value + "\0" + hidden + "\n" + rest)
            == ReadHead(v, TakeField(v, h, f.name, f.value), rest)
  {
    hide NextLine, TakeLine, TrimRight, CStr, TakeField, Trimmed, ContinuationOk, Lower, Ignored;
    var seen := f.name + ": " + f.value;
    var text := seen + "\0" + hidden;
    var line := TrimRight(text);
    JoinClean(f.name, ": ", f.value);
    NextLineIs("", text, rest);
    assert "" + text == text;
    NextLineShrinks("", text + "\n" + rest);
    assert text[|seen|] == '\0';
    TrimRightPrefix(text, |seen|);
    CutAtNul(line, seen);
    FieldShown(v, h, f);
    SameToC(v, h, line, seen);
  }

  lemma FieldShown(v: Server, h: Head, f: Field)
    requires HeadOk(h) && FieldOk(f)
    ensures var seen := f.name + ": " + f.value;
            Clean(seen) && TakeLine(v, h, seen) == TakeField(v, h, f.name, f.value) && !Ignored(h, seen)
  {
    hide TakeLine, TakeField, Lower, ContinuationOk, CStr;
    var seen := f.name + ": " + f.value;
    JoinClean(f.name, ": ", f.value);
    JoinBlank("");
    assert seen == f.name + ":" + " " + f.value == f.name + ":" + (" " + f.value);
    TakeLineIs(v, h, f.name, " ", f.value);
    CleanIsC(seen);
    ColonSplits(f.name, " " + f.value);
    assert seen[0] == if f.name == "" then ':' else f.name[0];
  }

  lemma CutAtNul(line: string, seen: string)
    requires Clean(seen) && seen + "\0" <= line
    ensures CStr(line) == seen
  {
    assert line[|seen|] == (seen + "\0")[|seen|] == '\0';
    assert forall i :: 0 <= i < |seen| ==> line[i] == (seen + "\0")[i] == seen[i];
    assert Find(line, 0, '\0') == |seen|;
  }

  /** Lines that are the same to C code are taken in the same way. */
  lemma SameToC(v: Server, h: Head, a: string, b: string)
    requires HeadOk(h) && CStr(a) == b && Clean(b) && !Ignored(h, b)
    ensures TakeLine(v, h, a) == TakeLine(v, h, b)
  {
    hide TakeField, CStr;
    CleanIsC(b);
  }

  // ----- the other ways a response ends

  /** The output of a script that makes its own headers is passed on as it is. */
  lemma OwnHeadersPassThrough(v: Server, headers: Headers, s: string, fails: bool)
    ensures Respond(v, true, headers, s, fails) == Sent(None, headers, s)
  {
  }

  /**
   * A response that ends within its headers: the line that is not complete is dropped, and there
   * is no body.  If the pipe failed, or no header was complete, the response is an error.
   */
  lemma EndWithinHeaders(v: Server, headers: Headers, fields: seq<Field>, eol: string, rest: string, fails: bool)
    requires LineBlank(eol) && (forall i :: 0 <= i < |fields| ==> FieldOk(fields[i]))
    requires forall i :: 0 <= i < |rest| ==> rest[i] != '\n'
    ensures var h := ReadAll(v, Begin(headers), fields);
            Respond(v, false, headers, PrintAll(fields, eol) + rest, fails) ==
              if fails then InternalError(h.headers)
              else if fields == [] then Failed
              else Sent(Some(h.status), h.headers, "")
  {
    hide ReadHead, FieldOk, PrintAll, ReadAll;
    ReadsAll(v, Begin(headers), fields, eol, rest);
    NoMoreLines(v, ReadAll(v, Begin(headers), fields), rest);
    LinesCounted(v, Begin(headers), fields);
  }

  lemma NoMoreLines(v: Server, h: Head, rest: string)
    requires HeadOk(h) && forall i :: 0 <= i < |rest| ==> rest[i] != '\n'
    ensures ReadHead(v, h, rest) == End(h, false, "")
  {
    hide TrimRight;
    assert Find(rest, 0, '\n') == |rest|;
  }

  lemma {:induction false} LinesCounted(v: Server, h: Head, fields: seq<Field>)
    requires HeadOk(h) && h.ds == "" && forall i :: 0 <= i < |fields| ==> FieldOk(fields[i])
    ensures ReadAll(v, h, fields).lines >= h.lines && (fields != [] ==> ReadAll(v, h, fields).lines > h.lines)
    ensures fields == [] ==> ReadAll(v, h, fields) == h
    decreases |fields|
  {
    hide FieldOk, Continue, TakeField;
    if fields != [] {
      var f := fields[0];
      TakeWhole(v, h, f, []);
      LinesCounted(v, Continue(TakeField(v, h, f.name, f.value), f.more), fields[1..]);
    }
  }
}
