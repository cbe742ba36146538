/**
 * The response reader of nscgi/nscgi.c: CgiRead, CgiReadLine and CgiCopy.
 *
 * The pipe is what successive reads will find: pieces of data, interruptions, and then the
 * end of the file or an error.  The specification only looks at the bytes, in one piece.
 */
module Cgi {
  import opened Prelude
  import opened Chars

  datatype Read = Data(bytes: string) | Interrupted

  /** All the bytes that the pipe still holds. */
  function Bytes(pipe: seq<Read>): string {
    if pipe == [] then "" else (if pipe[0].Data? then pipe[0].bytes else "") + Bytes(pipe[1..])
  }

  /** No read of data yields nothing. */
  ghost predicate PipeOk(pipe: seq<Read>) {
    forall i :: 0 <= i < |pipe| && pipe[i].Data? ==> pipe[i].bytes != ""
  }

  /** What a read of at most `size` bytes takes from the pipe, and what it leaves. */
  function Pull(pipe: seq<Read>, size: nat): (string, seq<Read>)
    requires pipe != [] && pipe[0].Data?
  {
    var data := pipe[0].bytes;
    if |data| <= size then (data, pipe[1..]) else (data[..size], [Data(data[size..])] + pipe[1..])
  }

  lemma PullIs(pipe: seq<Read>, size: nat)
    requires PipeOk(pipe) && pipe != [] && pipe[0].Data? && size > 0
    ensures var (taken, rest) := Pull(pipe, size);
            && 0 < |taken| <= size && taken + Bytes(rest) == Bytes(pipe)
            && PipeOk(rest) && |rest| <= |pipe|
  {
    var data := pipe[0].bytes;
    assert data != "";
    if |data| > size {
      BytesSplit(data, size, pipe[1..]);
    }
  }

  lemma BytesSplit(data: string, size: nat, pipe: seq<Read>)
    requires size <= |data|
    ensures data[..size] + Bytes([Data(data[size..])] + pipe) == data + Bytes(pipe)
  {
    var rest := [Data(data[size..])] + pipe;
    assert rest[1..] == pipe;
    assert data == data[..size] + data[size..];
  }

  // ----- the specification

  /** A byte string as C code sees it. */
  function CStr(s: string): string {
    s[..Find(s, 0, '\0')]
  }

  /**
   * CgiReadLine on the bytes `s`, with `ds` in the line buffer: the line that is then in the
   * buffer, right-trimmed, and the bytes after it; nothing if `s` has no newline.
   */
  function NextLine(ds: string, s: string): Option<(string, string)> {
    var i := Find(s, 0, '\n');
    if i == |s| then None else Some((TrimRight(ds + s[..i]), s[i + 1..]))
  }

  type Headers = seq<(string, string)>

  /** The variables of the header loop. */
  datatype Head = Head(ds: string, last: int, headers: Headers, status: int, provided: bool, lines: nat)

  predicate HeadOk(h: Head) {
    -1 <= h.last < |h.headers|
  }

  /** The server's own location, whether relative redirects are allowed, and strtol. */
  datatype Server = Server(location: string, relative: bool, number: string -> int)

  function Put(h: Head, name: string, value: string): Head {
    h.(ds := "", lines := h.lines + 1, headers := h.headers + [(name, value)], last := |h.headers|)
  }

  /** A header with a colon. */
  function TakeField(v: Server, h: Head, name: string, value: string): Head {
    if Lower(name) == "status" then
      h.(ds := "", lines := h.lines + 1, provided := true, status := v.number(value))
    else if Lower(name) == "location" then
      var h' := h.(status := if h.provided then h.status else 302);
      Put(h', name, if !v.relative && At(value, 0, '/') then v.location + value else value)
    else Put(h, name, value)
  }

  /** One turn of the header loop, on a line that is not empty. */
  function TakeLine(v: Server, h: Head, line: string): (r: Head)
    requires HeadOk(h)
    ensures HeadOk(r)
  {
    var c := CStr(line);
    if c != "" && IsSpace(c[0]) then
      if h.last == -1 then h.(ds := line)
      else
        var (name, value) := h.headers[h.last];
        h.(ds := "", lines := h.lines + 1, headers := h.headers[h.last := (name, value + "\n" + c)])
    else
      var i := Find(c, 0, ':');
      if i == |c| then h.(ds := line) else TakeField(v, h, c[..i], TrimLeft(c[i + 1..]))
  }

  /** The end of the header loop: the bytes left, and whether a blank line was found. */
  datatype End = End(head: Head, blank: bool, rest: string)

  function ReadHead(v: Server, h: Head, s: string): (e: End)
    requires HeadOk(h)
    ensures |e.rest| <= |s|
    decreases |s|
  {
    var line := NextLine(h.ds, s);
    if line.None? then End(h, false, "")
    else if line.value.0 == "" then End(h, true, line.value.1)
    else ReadHead(v, TakeLine(v, h, line.value.0), line.value.1)
  }

  datatype Reply =
    | InternalError(headers: Headers)
    | Failed
    /** The status is left alone for a script that sends its own headers. */
    | Sent(status: Option<int>, headers: Headers, body: string)

  function Begin(headers: Headers): Head {
    Head("", -1, headers, 200, false, 0)
  }

  /** CgiCopy on all the bytes of the pipe, which ends with an error if `fails`. */
  function Respond(v: Server, nph: bool, headers: Headers, s: string, fails: bool): Reply {
    if nph then Sent(None, headers, s)
    else
      var e := ReadHead(v, Begin(headers), s);
      if !e.blank && fails then InternalError(e.head.headers)
      else if e.head.lines == 0 then Failed
      else Sent(Some(e.head.status), e.head.headers, e.rest)
  }

  // ----- the imperative form

  /**
   * The connection: what CgiCopy leaves there.  `body` is what was written of the script's
   * output, `errorPage` whether the server's own error page was returned instead, and `writes`
   * how many more writes succeed, if not all.
   */
  class Conn {
    var headers: Headers
    var status: Option<int>
    var body: string
    var errorPage: bool
    var writes: Option<nat>

    constructor (headers: Headers, writes: Option<nat>)
      ensures this.headers == headers && this.writes == writes && status == None && body == "" && !errorPage
    {
      this.headers, this.writes, status, body, errorPage := headers, writes, None, "", false;
    }

    method WriteData(s: string) returns (ok: bool)
      modifies this`body, this`writes
      ensures ok == (old(writes) != Some(0)) && (writes.None? <==> old(writes).None?)
      ensures body == if ok then old(body) + s else old(body)
    {
      ok := writes != Some(0);
      if ok {
        body := body + s;
        writes := if writes.Some? then Some(writes.value - 1) else None;
      }
    }
  }

  class Cgi {
    const buf: array<char>
    const fails: bool
    const nph: bool
    var ptr: nat
    var cnt: nat
    var pipe: seq<Read>

    constructor (size: nat, pipe: seq<Read>, fails: bool, nph: bool)
      requires size > 0 && PipeOk(pipe)
      ensures Valid() && fresh(buf) && Left() == Bytes(pipe) && this.fails == fails && this.nph == nph
    {
      buf := new char[size](_ => '\0');
      ptr, cnt := 0, 0;
      this.pipe, this.fails, this.nph := pipe, fails, nph;
    }

    ghost predicate Valid()
      reads this
    {
      buf.Length > 0 && ptr + cnt <= buf.Length && PipeOk(pipe)
    }

    /** The bytes not yet consumed: those in the buffer and those in the pipe. */
    ghost function Left(): string
      requires Valid()
      reads this, buf
    {
      buf[ptr..ptr + cnt] + Bytes(pipe)
    }

    /** The retry loop of CgiRead. */
    method SkipInterruptions()
      modifies this`pipe
      requires PipeOk(pipe)
      ensures PipeOk(pipe) && Bytes(pipe) == Bytes(old(pipe)) && (pipe != [] ==> pipe[0].Data?)
    {
      while pipe != [] && pipe[0].Interrupted?
        invariant PipeOk(pipe) && Bytes(pipe) == Bytes(old(pipe))
        decreases |pipe|
      {
        pipe := pipe[1..];
      }
    }

    /** CgiRead: how many bytes it got, zero at the end of the file, or -1. */
    method CgiRead() returns (n: int)
      requires Valid()
      modifies this`ptr, this`cnt, this`pipe, buf
      ensures Valid()
      ensures n > 0 ==> cnt == n && Left() == Bytes(old(pipe)) && |Bytes(pipe)| < |Bytes(old(pipe))|
      ensures n <= 0 ==> cnt == old(cnt) && Bytes(old(pipe)) == "" && pipe == [] && n == (if fails then -1 else 0)
    {
      hide Bytes, PipeOk;
      ptr := 0;
      SkipInterruptions();
      if pipe == [] {
        n := if fails then -1 else 0;
        NoBytes();
      } else {
        PullIs(pipe, buf.Length);
        var (taken, rest) := Pull(pipe, buf.Length);
        n := |taken|;
        forall i | 0 <= i < n {
          buf[i] := taken[i];
        }
        assert buf[..n] == taken;
        cnt, pipe := n, rest;
      }
    }

    /** The inner loop of CgiReadLine: to the newline, or to the end of the buffer. */
    method ScanBuffer(ds: string) returns (found: bool, line: string)
      requires Valid()
      modifies this`ptr, this`cnt
      ensures Valid()
      ensures found ==> NextLine(ds, old(Left())) == Some((line, Left()))
      ensures !found ==> cnt == 0 && NextLine(line, Left()) == NextLine(ds, old(Left()))
    {
      hide NextLine, Bytes, PipeOk, TrimRight;
      line := ds;
      while cnt > 0
        invariant Valid() && NextLine(line, Left()) == NextLine(ds, old(Left()))
        decreases cnt
      {
        var c := buf[ptr];
        ghost var left := Left();
        NextLineStep(line, left);
        ptr, cnt := ptr + 1, cnt - 1;
        assert left[0] == c && left[1..] == Left();
        if c == '\n' {
          line := Trim(line);
          return true, line;
        }
        line := line + [c];
      }
      found := false;
    }

    /** CgiReadLine: the line is left in `line`; its length, zero or -1 is returned. */
    method CgiReadLine(ds: string) returns (n: int, line: string)
      requires Valid()
      modifies this`ptr, this`cnt, this`pipe, buf
      ensures Valid()
      ensures match NextLine(ds, old(Left()))
              case Some((text, rest)) => n == |text| && line == text && Left() == rest
              case None => n == (if fails then -1 else 0) && Left() == ""
    {
      hide NextLine, Bytes, PipeOk, TrimRight;
      line := ds;
      while true
        invariant Valid() && NextLine(line, Left()) == NextLine(ds, old(Left()))
        decreases |Bytes(pipe)|
      {
        var found;
        found, line := ScanBuffer(line);
        if found {
          return |line|, line;
        }
        assert Left() == Bytes(pipe);
        n := CgiRead();
        if n <= 0 {
          NextLineNone(line);
          NoBytes();
          return;
        }
      }
    }

    /** The loop that cuts trailing white space. */
    static method Trim(s: string) returns (r: string)
      ensures r == TrimRight(s)
    {
      r := s;
      while r != "" && IsSpace(r[|r| - 1])
        invariant TrimRight(r) == TrimRight(s)
        decreases |r|
      {
        r := r[..|r| - 1];
      }
    }

    /** One header line: split it at the colon and act on it. */
    static method TakeHeader(v: Server, h: Head, line: string) returns (r: Head)
      requires HeadOk(h)
      ensures r == TakeLine(v, h, line)
    {
      hide Lower, TakeField;
      var c := CStr(line);
      r := h;
      if c != "" && IsSpace(c[0]) {
        if h.last == -1 {
          return h.(ds := line);
        }
        var (name, value) := h.headers[h.last];
        r := h.(ds := "", lines := h.lines + 1, headers := h.headers[h.last := (name, value + "\n" + c)]);
      } else {
        var i := Strchr(c, 0, ':');
        if i == |c| {
          return h.(ds := line);
        }
        var value := c[i + 1..];
        while value != "" && IsSpace(value[0])
          invariant TrimLeft(value) == TrimLeft(c[i + 1..])
          decreases |value|
        {
          value := value[1..];
        }
        r := TakeField(v, h, c[..i], value);
      }
    }

    /** The header loop of CgiCopy; `n` is what the last CgiReadLine returned. */
    method ReadHeaders(v: Server, headers: Headers) returns (h: Head, n: int)
      requires Valid()
      modifies this`ptr, this`cnt, this`pipe, buf
      ensures Valid()
      ensures var e := ReadHead(v, Begin(headers), old(Left()));
              && h.headers == e.head.headers && h.status == e.head.status && h.lines == e.head.lines
              && n == (if !e.blank && fails then -1 else 0) && Left() == e.rest
    {
      hide NextLine, TakeLine, Bytes, PipeOk;
      h := Begin(headers);
      while true
        invariant Valid() && HeadOk(h)
        invariant ReadHead(v, h, Left()) == ReadHead(v, Begin(headers), old(Left()))
        decreases |Left()|
      {
        ghost var left := Left();
        NextLineShrinks(h.ds, left);
        var line;
        n, line := CgiReadLine(h.ds);
        if n <= 0 {
          return;
        }
        h := TakeHeader(v, h, line);
      }
    }

    /** The copy loop. */
    method CopyBody(conn: Conn) returns (ok: bool)
      requires Valid()
      modifies this`ptr, this`cnt, this`pipe, buf, conn`body, conn`writes
      ensures old(conn.body) <= conn.body <= old(conn.body) + old(Left())
      ensures ok ==> conn.body == old(conn.body) + old(Left())
      ensures old(conn.writes).None? ==> ok
    {
      hide Bytes, PipeOk;
      while true
        invariant Valid() && conn.body + Left() == old(conn.body) + old(Left()) && old(conn.body) <= conn.body
        invariant conn.writes.None? <==> old(conn.writes).None?
        decreases |Bytes(pipe)|
      {
        ghost var body, pipe0 := conn.body, pipe;
        var data := buf[ptr..ptr + cnt];
        ok := conn.WriteData(data);
        assert (body + data) + Bytes(pipe0) == body + (data + Bytes(pipe0));
        if !ok {
          return;
        }
        var n := CgiRead();
        if n <= 0 {
          return;
        }
      }
    }

    method CgiCopy(v: Server, conn: Conn) returns (ok: bool)
      requires Valid()
      modifies this`ptr, this`cnt, this`pipe, buf, conn
      ensures var reply := Respond(v, nph, old(conn.headers), old(Left()), fails);
              match reply
              case InternalError(headers) =>
                !ok && conn.errorPage && conn.headers == headers && conn.body == old(conn.body)
              case Failed => !ok && conn.errorPage == old(conn.errorPage) && conn.body == old(conn.body)
              case Sent(status, headers, body) =>
                && conn.errorPage == old(conn.errorPage)
                && conn.headers == headers && conn.status == (if status.Some? then status else old(conn.status))
                && old(conn.body) <= conn.body <= old(conn.body) + body
                && (ok ==> conn.body == old(conn.body) + body)
                && (old(conn.writes).None? ==> ok)
    {
      hide ReadHead, Bytes, PipeOk;
      if !nph {
        var h, n := ReadHeaders(v, conn.headers);
        conn.headers := h.headers;
        if n < 0 {
          conn.errorPage := true;
          return false;
        }
        if h.lines == 0 {
          return false;
        }
        conn.status := Some(h.status);
      }
      ok := CopyBody(conn);
    }
  }

  lemma NoBytes()
    ensures Bytes([]) == ""
  {
  }

  lemma {:induction false} FindShift(s: string, i: nat, c: char)
    requires 1 <= i <= |s|
    ensures Find(s, i, c) == Find(s[1..], i - 1, c) + 1
    decreases |s| - i
  {
    if i < |s| {
      FindShift(s, i + 1, c);
    }
  }

  /** Moving one byte from the input to the line buffer. */
  lemma NextLineStep(ds: string, s: string)
    requires s != ""
    ensures NextLine(ds, s) ==
              if s[0] == '\n' then Some((TrimRight(ds), s[1..])) else NextLine(ds + [s[0]], s[1..])
  {
    FindShift(s, 1, '\n');
    var i := Find(s, 0, '\n');
    if s[0] == '\n' {
      assert ds + s[..0] == ds;
    } else if i < |s| {
      assert ds + s[..i] == (ds + [s[0]]) + s[1..][..i - 1];
      assert s[1..][i - 1 + 1..] == s[i + 1..];
    }
  }

  lemma NextLineNone(ds: string)
    ensures NextLine(ds, "") == None
  {
  }

  lemma NextLineShrinks(ds: string, s: string)
    ensures NextLine(ds, s).Some? ==> |NextLine(ds, s).value.1| < |s|
  {
  }
}
