/**
 * lib/sseclient.js: the older one-connection client object. `initialize` sends
 * the status line, three headers and an `:ok` comment; `send(event, data, id)`
 * writes `event: `, `retry: ` and `id: ` lines for the truthy fields, then the
 * data with its line breaks normalised to LF, one `data: ` line per line of
 * text, and a blank line after the last one.
 */
module LibSseClient {
  import opened Wrappers
  import opened Utils
  import opened Http
  import opened EventStream
  import Records
  import Json

  /** The JavaScript values `send` can be called with; numbers are integers here. */
  datatype Value =
    | Undefined
    | Null
    | Bool(b: bool)
    | Num(n: int)
    | Str(s: string)
    | Obj(event: Value, data: Value, id: Value, retry: Value)   // the four properties `send` reads

  predicate Truthy(v: Value) {
    match v
    case Undefined => false
    case Null => false
    case Bool(b) => b
    case Num(n) => n != 0
    case Str(s) => s != ""
    case Obj(_, _, _, _) => true
  }

  /** `typeof v == 'object'`, which holds for `null` too. */
  predicate IsObject(v: Value) {
    v.Null? || v.Obj?
  }

  /** `v || undefined`. */
  function OrUndefined(v: Value): (r: Value)
    ensures Truthy(v) ==> r == v
    ensures !Truthy(v) ==> r == Undefined
  {
    if Truthy(v) then v else Undefined
  }

  /** String concatenation's conversion of a value. */
  function ToStr(v: Value): string {
    match v
    case Undefined => "undefined"
    case Null => "null"
    case Bool(b) => if b then "true" else "false"
    case Num(n) => Json.IntToString(n)
    case Str(s) => s
    case Obj(_, _, _, _) => "[object Object]"
  }

  /** The `i`-th argument; a missing one is `undefined`. */
  function ArgAt(args: seq<Value>, i: nat): Value {
    if i < |args| then args[i] else Undefined
  }

  /** `senderObject`. */
  datatype Sender = Sender(event: Value, data: Value, id: Value, retry: Value)

  /** What reading a property of `null` throws (V8's wording). */
  function NullRead(prop: string): ErrorValue {
    ErrorValue("TypeError", "Cannot read properties of null (reading '" + prop + "')")
  }

  /**
   * `senderObject` once the arguments are read: positional arguments, replaced
   * by the fields of an object first argument, or a lone non-object argument
   * taken as the data; a `null` first argument throws.
   */
  function Prepare(args: seq<Value>): Try<Sender> {
    var event := ArgAt(args, 0);
    if event.Null? then Threw(NullRead("event"))
    else if event.Obj? then
      Returned(Sender(OrUndefined(event.event), OrUndefined(event.data), OrUndefined(event.id), OrUndefined(event.retry)))
    else if |args| == 1 then Returned(Sender(Undefined, event, Undefined, Undefined))
    else Returned(Sender(OrUndefined(event), OrUndefined(ArgAt(args, 1)), OrUndefined(ArgAt(args, 2)), Undefined))
  }

  /** A lone argument that is not an object is the data, even when it is falsy. */
  lemma LoneValueIsData(v: Value)
    requires !IsObject(v)
    ensures Prepare([v]) == Returned(Sender(Undefined, v, Undefined, Undefined))
  {
  }

  /** With positional arguments there is never a `retry`, and falsy ones are dropped. */
  lemma PositionalArguments(args: seq<Value>)
    requires |args| >= 2 && !IsObject(args[0])
    ensures Prepare(args).Returned?
    ensures Prepare(args).value.retry == Undefined
    ensures Prepare(args).value.event == OrUndefined(args[0])
    ensures Prepare(args).value.data == OrUndefined(args[1])
    ensures Prepare(args).value.id == OrUndefined(ArgAt(args, 2))
  {
  }

  /** An object argument supplies all four fields, whatever else is passed; falsy ones are dropped. */
  lemma ObjectArgument(args: seq<Value>)
    requires |args| >= 1 && args[0].Obj?
    ensures Prepare(args) ==
            Returned(Sender(OrUndefined(args[0].event), OrUndefined(args[0].data),
                            OrUndefined(args[0].id), OrUndefined(args[0].retry)))
  {
  }

  /** One `name: value` line, terminated by LF. */
  function FieldChunk(name: string, v: Value): string {
    name + ": " + ToStr(v) + "\n"
  }

  /** The header lines, in the order `event`, `retry`, `id`, for the truthy fields only. */
  function HeaderChunks(s: Sender): seq<string> {
    (if Truthy(s.event) then [FieldChunk("event", s.event)] else [])
    + (if Truthy(s.retry) then [FieldChunk("retry", s.retry)] else [])
    + (if Truthy(s.id) then [FieldChunk("id", s.id)] else [])
  }

  /** `senderObject.data.replace(…)`: only a string has that method. */
  function DataText(v: Value): Try<string> {
    match v
    case Str(s) => Returned(s)
    case Undefined => Threw(ErrorValue("TypeError", "Cannot read properties of undefined (reading 'replace')"))
    case Null => Threw(NullRead("replace"))
    case _ => Threw(ErrorValue("TypeError", "senderObject.data.replace is not a function"))
  }

  /** `s.replace(/(\r\n|\r|\n)/g, '\n')`: CRLF and lone CR become LF. */
  function NormaliseBreaks(s: string): string
    decreases |s|
  {
    if s == [] then []
    else if s[0] == '\r' then "\n" + NormaliseBreaks(if |s| > 1 && s[1] == '\n' then s[2..] else s[1..])
    else [s[0]] + NormaliseBreaks(s[1..])
  }

  /** Index of the first LF, or the length when there is none. */
  function LfIndex(s: string): (i: nat)
    ensures i <= |s| && '\n' !in s[..i]
    ensures i < |s| ==> s[i] == '\n'
  {
    if s == [] || s[0] == '\n' then 0
    else
      var j := LfIndex(s[1..]);
      assert s[..1 + j] == [s[0]] + s[1..][..j];
      1 + j
  }

  /** `s.split(/\n/)`: the pieces between LFs; there is always one more piece than LFs. */
  function SplitLf(s: string): (r: seq<string>)
    ensures |r| >= 1
    decreases |s|
  {
    var i := LfIndex(s);
    if i == |s| then [s] else [s[..i]] + SplitLf(s[i + 1..])
  }

  /** The `data: ` line for piece `i`; the last one also ends the record. */
  function DataChunk(lines: seq<string>, i: nat): string
    requires i < |lines|
  {
    "data: " + lines[i] + (if i + 1 == |lines| then "\n\n" else "\n")
  }

  function DataChunks(lines: seq<string>): (r: seq<string>)
    ensures |r| == |lines| && forall i :: 0 <= i < |lines| ==> r[i] == DataChunk(lines, i)
  {
    seq(|lines|, i requires 0 <= i < |lines| => DataChunk(lines, i))
  }

  /** The chunks `send` writes, in order, and what it throws. */
  datatype Written = Written(chunks: seq<string>, thrown: Option<ErrorValue>)

  /**
   * `send(...args)`: nothing without arguments; otherwise the header lines,
   * then the data lines, unless preparing the fields or the data throws, in
   * which case the lines already written stay written.
   */
  function Writes(args: seq<Value>): Written {
    if args == [] then Written([], None)
    else
      match Prepare(args)
      case Threw(e) => Written([], Some(e))
      case Returned(s) =>
        match DataText(s.data)
        case Threw(e) => Written(HeaderChunks(s), Some(e))
        case Returned(d) => Written(HeaderChunks(s) + DataChunks(SplitLf(NormaliseBreaks(d))), None)
  }

  /** The response after a sequence of `res.write` calls. */
  function WriteAll(w: Wire, chunks: seq<string>): Wire
    decreases |chunks|
  {
    if chunks == [] then w else WriteAll(w, chunks[..|chunks| - 1]).AfterWrite(chunks[|chunks| - 1])
  }

  lemma WriteAllAppend(w: Wire, a: seq<string>, c: string)
    ensures WriteAll(w, a + [c]) == WriteAll(w, a).AfterWrite(c)
  {
    assert (a + [c])[..|a|] == a;
  }

  /** On a writable response every chunk goes out, in order. */
  lemma {:induction false} WriteAllOutput(w: Wire, chunks: seq<string>)
    requires w.Writable()
    ensures WriteAll(w, chunks).output == w.output + chunks
    ensures WriteAll(w, chunks).Writable()
    decreases |chunks|
  {
    if chunks != [] {
      var init := chunks[..|chunks| - 1];
      WriteAllOutput(w, init);
      assert chunks == init + [chunks[|chunks| - 1]];
    }
  }

  const ClientHeaders: Headers := map[
    "Content-Type" := "text/event-stream",
    "Cache-Control" := "no-cache, no-transform",
    "Connection" := "keep-alive"]

  /** The comment `initialize` writes after the headers. */
  const OkComment: string := ":ok\n\n"

  /** What the client object emits. */
  datatype ClientEvent = Closed

  class SSEClient {
    const req: Request
    const res: Response
    /** The events the client has emitted. */
    var log: seq<ClientEvent>

    constructor (req: Request, res: Response)
      ensures this.req == req && this.res == res && log == []
    {
      this.req := req;
      this.res := res;
      log := [];
    }

    /** The response's `close` listener: the client re-emits it. */
    method OnResponseClose()
      modifies this
      ensures log == old(log) + [Closed]
    {
      log := log + [Closed];
    }

    /** `initialize()`: status 200 with the event-stream headers, then `:ok`; the write is skipped if `writeHead` throws. */
    method Initialize() returns (thrown: Option<ErrorValue>)
      modifies res
      ensures thrown.Some? <==> old(res.wire.headersSent)
      ensures thrown.Some? ==> thrown.value == HeadersSentError && res.wire == old(res.wire)
      ensures thrown.None? ==> res.wire == old(res.wire).AfterWriteHead(200, ClientHeaders).AfterWrite(OkComment)
      ensures res.locals == old(res.locals) && res.sseId == old(res.sseId)
    {
      thrown := res.WriteHead(200, ClientHeaders);
      if thrown.None? {
        var e := res.Write(OkComment);
      }
    }

    /** `close()`: `res.end()`. */
    method Close()
      modifies res
      ensures res.wire == old(res.wire).AfterEnd(None)
      ensures res.locals == old(res.locals) && res.sseId == old(res.sseId)
    {
      var e := res.End(None);
    }

    /** Writes one chunk; `send` passes no callback, so a failed write goes unnoticed. */
    method Put(chunk: string)
      modifies res
      ensures res.wire == old(res.wire).AfterWrite(chunk)
      ensures res.locals == old(res.locals) && res.sseId == old(res.sseId)
    {
      var e := res.Write(chunk);
    }

    /** The `for` loop over `dataLines`. */
    method PutDataLines(lines: seq<string>)
      modifies res
      ensures res.wire == WriteAll(old(res.wire), DataChunks(lines))
      ensures res.locals == old(res.locals) && res.sseId == old(res.sseId)
    {
      ghost var w0 := res.wire;
      var chunks := DataChunks(lines);
      var i := 0;
      while i < |lines|
        invariant 0 <= i <= |lines|
        invariant res.wire == WriteAll(w0, chunks[..i])
        invariant res.locals == old(res.locals) && res.sseId == old(res.sseId)
      {
        var line := lines[i];
        WriteAllAppend(w0, chunks[..i], chunks[i]);
        assert chunks[..i + 1] == chunks[..i] + [chunks[i]];
        if i + 1 == |lines| {
          Put("data: " + line + "\n\n");
        } else {
          Put("data: " + line + "\n");
        }
        i := i + 1;
      }
      assert chunks[..i] == chunks;
    }

    /** The `if (senderObject.event) … if (senderObject.id)` writes of the header lines. */
    method PutHeaders(s: Sender)
      modifies res
      ensures res.wire == WriteAll(old(res.wire), HeaderChunks(s))
      ensures res.locals == old(res.locals) && res.sseId == old(res.sseId)
    {
      ghost var w0 := res.wire;
      ghost var written: seq<string> := [];
      if Truthy(s.event) {
        Put(FieldChunk("event", s.event));
        written := written + [FieldChunk("event", s.event)];
      }
      if Truthy(s.retry) {
        WriteAllAppend(w0, written, FieldChunk("retry", s.retry));
        Put(FieldChunk("retry", s.retry));
        written := written + [FieldChunk("retry", s.retry)];
      }
      if Truthy(s.id) {
        WriteAllAppend(w0, written, FieldChunk("id", s.id));
        Put(FieldChunk("id", s.id));
        written := written + [FieldChunk("id", s.id)];
      }
      assert written == HeaderChunks(s);
    }

    /** `send(...args)`. */
    method Send(args: seq<Value>) returns (thrown: Option<ErrorValue>)
      modifies res
      ensures res.wire == WriteAll(old(res.wire), Writes(args).chunks)
      ensures thrown == Writes(args).thrown
      ensures res.locals == old(res.locals) && res.sseId == old(res.sseId)
    {
      if |args| == 0 {
        return None;
      }
      var prepared := ReadArgs(args);
      if prepared.Threw? {
        return Some(prepared.error);
      }
      var s := prepared.value;
      ghost var w0 := res.wire;
      PutHeaders(s);
      var text := DataText(s.data);
      if text.Threw? {
        return Some(text.error);
      }
      var lines := SplitLf(NormaliseBreaks(text.value));
      PutDataLines(lines);
      WriteAllConcat(w0, HeaderChunks(s), DataChunks(lines));
      thrown := None;
    }
  }

  /**
   * The argument handling at the top of `send`: positional arguments first,
   * replaced by the fields of an object, or a lone non-object taken as the data.
   */
  method ReadArgs(args: seq<Value>) returns (r: Try<Sender>)
    ensures r == Prepare(args)
  {
    var event, data, id, retry := OrUndefined(ArgAt(args, 0)), OrUndefined(ArgAt(args, 1)),
                                  OrUndefined(ArgAt(args, 2)), Undefined;
    var first := ArgAt(args, 0);
    if first.Null? {
      return Threw(NullRead("event"));
    }
    if first.Obj? {
      event, data, id, retry := OrUndefined(first.event), OrUndefined(first.data),
                                OrUndefined(first.id), OrUndefined(first.retry);
    }
    if !IsObject(first) && |args| == 1 {
      event, data := Undefined, first;
    }
    r := Returned(Sender(event, data, id, retry));
  }

  lemma {:induction false} WriteAllConcat(w: Wire, a: seq<string>, b: seq<string>)
    ensures WriteAll(w, a + b) == WriteAll(WriteAll(w, a), b)
    decreases |b|
  {
    if b == [] {
      assert a + b == a;
    } else {
      var init := b[..|b| - 1];
      WriteAllConcat(w, a, init);
      assert (a + b)[..|a + b| - 1] == a + init;
      assert (a + b)[|a + b| - 1] == b[|b| - 1];
    }
  }

  // ---- What the client writes, and what a browser reads back ------------------

  /** `send()` with no arguments writes nothing and throws nothing. */
  lemma NoArgumentsNoOutput(w: Wire)
    ensures Writes([]) == Written([], None)
    ensures WriteAll(w, Writes([]).chunks) == w
  {
  }

  /** After normalisation no CR is left. */
  lemma {:induction false} NormalisedHasNoCr(s: string)
    ensures '\r' !in NormaliseBreaks(s)
    decreases |s|
  {
    if s != [] {
      if s[0] == '\r' {
        NormalisedHasNoCr(if |s| > 1 && s[1] == '\n' then s[2..] else s[1..]);
      } else {
        NormalisedHasNoCr(s[1..]);
      }
    }
  }

  /** Text without CR is left as it is. */
  lemma {:induction false} NormaliseKeepsLfText(s: string)
    requires '\r' !in s
    ensures NormaliseBreaks(s) == s
    decreases |s|
  {
    if s != [] {
      assert s[1..] == s[1..] && '\r' !in s[1..] by {
        forall k | 0 <= k < |s[1..]| ensures s[1..][k] != '\r' {
          assert s[1..][k] == s[k + 1];
        }
      }
      NormaliseKeepsLfText(s[1..]);
      assert s == [s[0]] + s[1..];
    }
  }

  /** Normalising twice is normalising once. */
  lemma NormaliseIdempotent(s: string)
    ensures NormaliseBreaks(NormaliseBreaks(s)) == NormaliseBreaks(s)
  {
    NormalisedHasNoCr(s);
    NormaliseKeepsLfText(NormaliseBreaks(s));
  }

  /** The number of LFs in a string. */
  function CountLf(s: string): nat {
    if s == [] then 0 else (if s[0] == '\n' then 1 else 0) + CountLf(s[1..])
  }

  lemma {:induction false} CountLfAppend(a: string, b: string)
    ensures CountLf(a + b) == CountLf(a) + CountLf(b)
  {
    if a == [] {
      assert a + b == b;
    } else {
      assert (a + b)[1..] == a[1..] + b;
      CountLfAppend(a[1..], b);
    }
  }

  lemma {:induction false} CountLfNone(s: string)
    requires '\n' !in s
    ensures CountLf(s) == 0
  {
    if s != [] {
      assert s[0] != '\n' && '\n' !in s[1..];
      CountLfNone(s[1..]);
    }
  }

  /** The pieces, each followed by LF, rebuild the text plus one LF. */
  lemma {:induction false} SplitLfJoin(s: string)
    ensures Join(SplitLf(s)) == s + "\n"
    decreases |s|
  {
    var i := LfIndex(s);
    if i == |s| {
      assert s[..i] == s;
      assert Join([s]) == s + "\n" + Join([]);
    } else {
      var head, tail := s[..i], s[i + 1..];
      SplitLfJoin(tail);
      var r := SplitLf(s);
      assert r == [head] + SplitLf(tail);
      assert r[0] == head && r[1..] == SplitLf(tail);
      assert Join(r) == head + "\n" + Join(SplitLf(tail));
      assert Join(r) == head + "\n" + (tail + "\n");
      assert s == head + "\n" + tail by {
        assert s == s[..i] + [s[i]] + s[i + 1..];
      }
    }
  }

  /** There is one more piece than there are LFs. */
  lemma {:induction false} SplitLfCount(s: string)
    ensures |SplitLf(s)| == CountLf(s) + 1
    decreases |s|
  {
    var i := LfIndex(s);
    if i == |s| {
      assert s[..i] == s;
      CountLfNone(s);
    } else {
      var head, tail := s[..i], s[i + 1..];
      SplitLfCount(tail);
      assert s == head + ("\n" + tail);
      CountLfAppend(head, "\n" + tail);
      CountLfAppend("\n", tail);
      CountLfNone(head);
      assert CountLf("\n") == 1;
    }
  }

  /** A piece holds no LF, and only characters of the text. */
  lemma {:induction false} SplitLfChars(s: string)
    ensures forall i :: 0 <= i < |SplitLf(s)| ==> '\n' !in SplitLf(s)[i]
    ensures forall i, c :: 0 <= i < |SplitLf(s)| && c in SplitLf(s)[i] ==> c in s
    decreases |s|
  {
    var i := LfIndex(s);
    if i < |s| {
      var head, tail := s[..i], s[i + 1..];
      SplitLfChars(tail);
      var r := SplitLf(s);
      assert r == [head] + SplitLf(tail);
      forall j | 0 <= j < |r| ensures '\n' !in r[j] && forall c :: c in r[j] ==> c in s {
        if j > 0 {
          assert r[j] == SplitLf(tail)[j - 1];
          forall c | c in tail ensures c in s {
            var k :| 0 <= k < |tail| && tail[k] == c;
            assert s[i + 1 + k] == c;
          }
        } else {
          forall c | c in head ensures c in s {
            var k :| 0 <= k < |head| && head[k] == c;
            assert s[k] == c;
          }
        }
      }
    } else {
      assert s[..i] == s;
    }
  }

  /**
   * The data lines of a record: CR is gone, each line of the normalised text is
   * one `data: ` line, so there are as many of them as LFs plus one.
   */
  lemma DataLinesOfText(d: string)
    ensures var lines := SplitLf(NormaliseBreaks(d));
            && |lines| == CountLf(NormaliseBreaks(d)) + 1
            && (forall i :: 0 <= i < |lines| ==> Json.NoLineBreak(lines[i]))
            && Join(lines) == NormaliseBreaks(d) + "\n"
  {
    var n := NormaliseBreaks(d);
    NormalisedHasNoCr(d);
    SplitLfJoin(n);
    SplitLfCount(n);
    SplitLfChars(n);
  }

  /** What the response's output spells once the chunks are written. */
  function Concat(chunks: seq<string>): string {
    if chunks == [] then "" else chunks[0] + Concat(chunks[1..])
  }

  lemma {:induction false} ConcatAppend(a: seq<string>, b: seq<string>)
    ensures Concat(a + b) == Concat(a) + Concat(b)
  {
    if a == [] {
      assert a + b == b;
    } else {
      assert (a + b)[1..] == a[1..] + b;
      ConcatAppend(a[1..], b);
    }
  }

  /** The header line for a truthy field, without its LF. */
  function OptHeader(name: string, v: Value): seq<string> {
    if Truthy(v) then [name + ": " + ToStr(v)] else []
  }

  function HeaderLines(s: Sender): seq<string> {
    OptHeader("event", s.event) + OptHeader("retry", s.retry) + OptHeader("id", s.id)
  }

  function DataLines(lines: seq<string>): (r: seq<string>)
    ensures |r| == |lines| && forall i :: 0 <= i < |lines| ==> r[i] == "data: " + lines[i]
  {
    seq(|lines|, i requires 0 <= i < |lines| => "data: " + lines[i])
  }

  lemma OptHeaderChunk(name: string, v: Value)
    ensures Concat(if Truthy(v) then [FieldChunk(name, v)] else []) == Join(OptHeader(name, v))
  {
    if Truthy(v) {
      assert Join([name + ": " + ToStr(v)]) == name + ": " + ToStr(v) + "\n" + Join([]);
      assert Concat([FieldChunk(name, v)]) == FieldChunk(name, v) + Concat([]);
    }
  }

  lemma HeaderChunksAreLines(s: Sender)
    ensures Concat(HeaderChunks(s)) == Join(HeaderLines(s))
  {
    var e, r, i := (if Truthy(s.event) then [FieldChunk("event", s.event)] else []),
                   (if Truthy(s.retry) then [FieldChunk("retry", s.retry)] else []),
                   (if Truthy(s.id) then [FieldChunk("id", s.id)] else []);
    ConcatAppend(e + r, i);
    ConcatAppend(e, r);
    OptHeaderChunk("event", s.event);
    OptHeaderChunk("retry", s.retry);
    OptHeaderChunk("id", s.id);
    JoinAppend(OptHeader("event", s.event) + OptHeader("retry", s.retry), OptHeader("id", s.id));
    JoinAppend(OptHeader("event", s.event), OptHeader("retry", s.retry));
  }

  /** The data chunks are the `data: ` lines followed by the blank line that ends the record. */
  lemma {:induction false} DataChunksAreLines(lines: seq<string>)
    requires |lines| >= 1
    ensures Concat(DataChunks(lines)) == Join(DataLines(lines) + [""])
    decreases |lines|
  {
    var l := lines[0];
    if |lines| == 1 {
      assert DataChunks(lines) == ["data: " + l + "\n\n"];
      assert Concat(DataChunks(lines)) == "data: " + l + "\n\n" + Concat([]);
      assert DataLines(lines) + [""] == ["data: " + l, ""];
      assert Join(["data: " + l, ""]) == "data: " + l + "\n" + Join([""]);
      assert Join([""]) == "" + "\n" + Join([]);
    } else {
      var rest := lines[1..];
      DataChunksAreLines(rest);
      assert DataChunks(lines)[1..] == DataChunks(rest) by {
        forall i | 0 <= i < |rest| ensures DataChunks(lines)[1..][i] == DataChunks(rest)[i] {
          assert DataChunk(lines, i + 1) == DataChunk(rest, i);
        }
      }
      assert (DataLines(lines) + [""])[1..] == DataLines(rest) + [""] by {
        assert DataLines(lines)[1..] == DataLines(rest);
      }
    }
  }

  /** What `send` puts on the wire, as the lines of one record. */
  lemma RecordOnWire(s: Sender, lines: seq<string>)
    requires |lines| >= 1
    ensures Concat(HeaderChunks(s) + DataChunks(lines)) == Join(HeaderLines(s) + DataLines(lines) + [""])
  {
    ConcatAppend(HeaderChunks(s), DataChunks(lines));
    HeaderChunksAreLines(s);
    DataChunksAreLines(lines);
    JoinAppend(HeaderLines(s), DataLines(lines) + [""]);
    assert HeaderLines(s) + DataLines(lines) + [""] == HeaderLines(s) + (DataLines(lines) + [""]);
  }

  /** A header value that stays on one line. */
  predicate OneLine(v: Value) {
    Truthy(v) ==> Json.NoLineBreak(ToStr(v))
  }

  lemma OptHeaderParse(p: Parser, name: string, v: Value)
    requires name != [] && name[0] != ':' && ':' !in name
    ensures ParseLines(p, OptHeader(name, v)) == if Truthy(v) then ProcessField(p, name, ToStr(v)) else p
  {
    if Truthy(v) {
      assert [name + ": " + ToStr(v)][1..] == [];
      SpacedFieldLine(p, name, ToStr(v));
    }
  }

  /** Reading the `data: ` lines appends each piece and an LF to the data buffer. */
  lemma {:induction false} ParseDataLines(p: Parser, lines: seq<string>)
    ensures ParseLines(p, DataLines(lines)) == p.(data := p.data + Join(lines))
    decreases |lines|
  {
    if lines != [] {
      var l, dl := lines[0], DataLines(lines);
      assert "data" + ": " + l == dl[0];
      SpacedFieldLine(p, "data", l);
      var q := p.(data := p.data + l + "\n");
      assert ProcessField(p, "data", l) == q;
      assert dl[1..] == DataLines(lines[1..]);
      assert ParseLines(p, dl) == ParseLines(q, dl[1..]);
      ParseDataLines(q, lines[1..]);
      assert q.data + Join(lines[1..]) == p.data + Join(lines);
    }
  }

  /** The type a client gives the event: the `event` field's text, else "message". */
  function TypeSent(s: Sender): string {
    if Truthy(s.event) then ToStr(s.event) else "message"
  }

  /** The client's last event ID after the record: the `id` field's text unless it holds NUL. */
  function IdSent(buffer: string, id: Value): string {
    if Truthy(id) && '\0' !in ToStr(id) then ToStr(id) else buffer
  }

  lemma TruthyTextNonEmpty(v: Value)
    requires Truthy(v)
    ensures ToStr(v) != ""
  {
  }

  lemma HeadersPlain(s: Sender)
    requires OneLine(s.event) && OneLine(s.retry) && OneLine(s.id)
    ensures AllLinesPlain(HeaderLines(s))
  {
    var h := HeaderLines(s);
    forall i | 0 <= i < |h| ensures Json.NoLineBreak(h[i]) {
    }
  }

  lemma HeaderEvent(p: Parser, v: Value)
    ensures ParseLines(p, OptHeader("event", v)) == if Truthy(v) then p.(eventType := ToStr(v)) else p
  {
    OptHeaderParse(p, "event", v);
  }

  lemma HeaderRetry(p: Parser, v: Value)
    ensures var q := ParseLines(p, OptHeader("retry", v));
            && q == p.(reconnectionTime := q.reconnectionTime)
            && (v.Num? && v.n > 0 ==> q.reconnectionTime == Some(v.n as nat))
            && (!Truthy(v) ==> q == p)
  {
    OptHeaderParse(p, "retry", v);
    if Truthy(v) {
      RetryField(p, ToStr(v));
      if v.Num? && v.n > 0 {
        Json.DecimalRoundTrip(v.n);
        assert ToStr(v) == Json.NatToString(v.n);
      }
    }
  }

  lemma HeaderId(p: Parser, v: Value)
    ensures ParseLines(p, OptHeader("id", v)) == p.(lastEventIdBuffer := IdSent(p.lastEventIdBuffer, v))
  {
    OptHeaderParse(p, "id", v);
  }

  /** The state after the header lines, read between two records. */
  lemma ParseHeaders(p: Parser, s: Sender)
    requires AtBoundary(p)
    ensures ParseLines(p, HeaderLines(s)).eventType == (if Truthy(s.event) then ToStr(s.event) else "")
    ensures ParseLines(p, HeaderLines(s)).data == ""
    ensures ParseLines(p, HeaderLines(s)).lastEventIdBuffer == IdSent(p.lastEventIdBuffer, s.id)
    ensures ParseLines(p, HeaderLines(s)).dispatched == p.dispatched
    ensures ParseLines(p, HeaderLines(s)).lastEventId == p.lastEventId
    ensures s.retry.Num? && s.retry.n > 0 ==> ParseLines(p, HeaderLines(s)).reconnectionTime == Some(s.retry.n as nat)
    ensures !Truthy(s.retry) ==> ParseLines(p, HeaderLines(s)).reconnectionTime == p.reconnectionTime
  {
    var e, r, i := OptHeader("event", s.event), OptHeader("retry", s.retry), OptHeader("id", s.id);
    ParseLinesAppend(p, e + r, i);
    ParseLinesAppend(p, e, r);
    HeaderEvent(p, s.event);
    var p1 := ParseLines(p, e);
    HeaderRetry(p1, s.retry);
    var p2 := ParseLines(p1, r);
    HeaderId(p2, s.id);
  }

  /** The record's lines are read one by one: headers, data, then the blank line. */
  lemma ParseRecord(p: Parser, s: Sender, lines: seq<string>)
    requires AllLinesPlain(HeaderLines(s)) && AllLinesPlain(DataLines(lines))
    ensures Parse(p, Join(HeaderLines(s) + DataLines(lines) + [""]))
            == Dispatch(ParseLines(ParseLines(p, HeaderLines(s)), DataLines(lines)))
  {
    var h, dl := HeaderLines(s), DataLines(lines);
    assert AllLinesPlain(dl + [""]) by {
      Records.PlainAppend(dl, [""]);
    }
    Records.PlainAppend(h, dl + [""]);
    assert h + dl + [""] == h + (dl + [""]);
    ParseJoin(p, h + dl + [""]);
    ParseLinesAppend(p, h, dl + [""]);
    var p1 := ParseLines(p, h);
    ParseLinesAppend(p1, dl, [""]);
    assert [""][1..] == [];
  }

  /** The event a record made of header lines and text `n` dispatches. */
  lemma ReceiveText(p: Parser, s: Sender, n: string)
    requires AtBoundary(p) && '\r' !in n
    requires OneLine(s.event) && OneLine(s.retry) && OneLine(s.id)
    ensures var q := Parse(p, Join(HeaderLines(s) + DataLines(SplitLf(n)) + [""]));
            && q.dispatched == p.dispatched + [Event(TypeSent(s), n, IdSent(p.lastEventIdBuffer, s.id))]
            && q.lastEventId == IdSent(p.lastEventIdBuffer, s.id)
            && (s.retry.Num? && s.retry.n > 0 ==> q.reconnectionTime == Some(s.retry.n as nat))
            && AtBoundary(q)
  {
    var lines := SplitLf(n);
    SplitLfJoin(n);
    SplitLfChars(n);
    var dl := DataLines(lines);
    assert AllLinesPlain(dl);
    HeadersPlain(s);
    ParseRecord(p, s, lines);
    ParseHeaders(p, s);
    var p1 := ParseLines(p, HeaderLines(s));
    ParseDataLines(p1, lines);
    var p2 := ParseLines(p1, dl);
    assert p2.data == n + "\n";
    if Truthy(s.event) {
      TruthyTextNonEmpty(s.event);
    }
    assert (n + "\n")[..|n|] == n;
  }

  /**
   * What a browser makes of one `send`, read between two records: exactly one
   * event, whose data is the text with its line breaks normalised, whose type is
   * the `event` field ("message" without one) and whose last event ID comes from
   * the `id` field; a positive numeric `retry` sets the reconnection time.
   */
  lemma ReceiveSend(p: Parser, args: seq<Value>)
    requires AtBoundary(p)
    requires args != [] && Writes(args).thrown.None?
    requires OneLine(Prepare(args).value.event) && OneLine(Prepare(args).value.retry) && OneLine(Prepare(args).value.id)
    ensures var s := Prepare(args).value;
            var q := Parse(p, Concat(Writes(args).chunks));
            && q.dispatched == p.dispatched + [Event(TypeSent(s), NormaliseBreaks(DataText(s.data).value),
                                                     IdSent(p.lastEventIdBuffer, s.id))]
            && q.lastEventId == IdSent(p.lastEventIdBuffer, s.id)
            && (s.retry.Num? && s.retry.n > 0 ==> q.reconnectionTime == Some(s.retry.n as nat))
            && AtBoundary(q)
  {
    var s := Prepare(args).value;
    var n := NormaliseBreaks(DataText(s.data).value);
    assert Writes(args).chunks == HeaderChunks(s) + DataChunks(SplitLf(n));
    RecordOnWire(s, SplitLf(n));
    NormalisedHasNoCr(DataText(s.data).value);
    ReceiveText(p, s, n);
  }
}
