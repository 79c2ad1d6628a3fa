/**
 * The event-stream records the services write: the message built by `send`
 * (lib/sse-service.js:128-137 tests each field with `isSet`, that is, present and
 * not null; packages/sse/lib/sse-service.js:157-166 tests truthiness), the
 * `resetEventId` record and the comment records used as heartbeats. Every encoder
 * is checked against the event-stream interpreter of section 9.2.6 of the WHATWG
 * HTML Living Standard.
 */
module Records {
  import opened Wrappers
  import Json
  import opened EventStream

  /** The fields of an object payload; `None` stands for `undefined` or `null`. */
  datatype Fields = Fields(
    id: Option<string>,
    event: Option<string>,
    data: Option<Json.Json>,
    retry: Option<int>,
    comment: Option<string>)

  /** What `send` accepts: a preformatted string or an object payload. */
  datatype SendPayload = Text(s: string) | Structured(fields: Fields)

  /** `"id:" + id + "\n"` and friends: a field line when the value is present. */
  function Piece(prefix: string, v: Option<string>): string {
    if v.Some? then prefix + v.value + "\n" else ""
  }

  function DataText(data: Option<Json.Json>): Option<string> {
    if data.Some? then Some(Json.Stringify(data.value)) else None
  }

  function RetryText(retry: Option<int>): Option<string> {
    if retry.Some? then Some(Json.IntToString(retry.value)) else None
  }

  /** The record a lib service writes for an object payload: each present field, then a blank line. */
  function Encode(f: Fields): string {
    Piece("id:", f.id) + Piece("event:", f.event) + Piece("data:", DataText(f.data))
    + Piece("retry:", RetryText(f.retry)) + Piece(":", f.comment) + "\n"
  }

  /** The message a lib service writes: a string payload verbatim, an object encoded. */
  function Message(p: SendPayload): string {
    match p
    case Text(s) => s
    case Structured(f) => Encode(f)
  }

  /** The record a package service writes: only the truthy fields appear. */
  function EncodeTruthy(f: Fields): string {
    (if f.id.Some? && f.id.value != "" then "id:" + f.id.value + "\n" else "")
    + (if f.event.Some? && f.event.value != "" then "event:" + f.event.value + "\n" else "")
    + (if f.data.Some? && Json.Truthy(f.data.value) then "data:" + Json.Stringify(f.data.value) + "\n" else "")
    + (if f.retry.Some? && f.retry.value != 0 then "retry:" + Json.IntToString(f.retry.value) + "\n" else "")
    + (if f.comment.Some? && f.comment.value != "" then ":" + f.comment.value + "\n" else "")
    + "\n"
  }

  /** Drops the fields JavaScript considers falsy. */
  function TruthyFields(f: Fields): (r: Fields)
    ensures r.id.Some? <==> f.id.Some? && f.id.value != ""
    ensures r.event.Some? <==> f.event.Some? && f.event.value != ""
    ensures r.data.Some? <==> f.data.Some? && Json.Truthy(f.data.value)
    ensures r.retry.Some? <==> f.retry.Some? && f.retry.value != 0
    ensures r.comment.Some? <==> f.comment.Some? && f.comment.value != ""
  {
    Fields(
      if f.id.Some? && f.id.value != "" then f.id else None,
      if f.event.Some? && f.event.value != "" then f.event else None,
      if f.data.Some? && Json.Truthy(f.data.value) then f.data else None,
      if f.retry.Some? && f.retry.value != 0 then f.retry else None,
      if f.comment.Some? && f.comment.value != "" then f.comment else None)
  }

  /** The package encoder is the lib encoder applied to the truthy fields only. */
  lemma EncodeTruthyFiltersFalsy(f: Fields)
    ensures EncodeTruthy(f) == Encode(TruthyFields(f))
  {
  }

  /** `resetEventId` writes an `id` field with an empty value, then a blank line. */
  const ResetRecord: string := "id\n\n"

  /** The comment lib's `setupHTTPResponse` writes to flush the headers. */
  const FlushComment: string := ":\n\n"

  /** The package's heartbeat comment text, sent at registration and by the timer. */
  const HeartbeatMessage: string := "heartbeat"

  /** The periodic heartbeat payload of a lib service: an empty comment. */
  const LibHeartbeat: Fields := Fields(None, None, None, None, Some(""))

  /** The periodic heartbeat payload of a package service. */
  const PackageHeartbeat: Fields := Fields(None, None, None, None, Some(HeartbeatMessage))

  // ---- The lines of a record -------------------------------------------------

  function OptLine(prefix: string, v: Option<string>): seq<string> {
    if v.Some? then [prefix + v.value] else []
  }

  /** The field lines of a record, without the terminating blank line. */
  function Lines(f: Fields): seq<string> {
    OptLine("id:", f.id) + OptLine("event:", f.event) + OptLine("data:", DataText(f.data))
    + OptLine("retry:", RetryText(f.retry)) + OptLine(":", f.comment)
  }

  lemma PieceIsJoin(prefix: string, v: Option<string>)
    ensures Piece(prefix, v) == Join(OptLine(prefix, v))
  {
    if v.Some? {
      assert Join([prefix + v.value]) == prefix + v.value + "\n" + Join([]);
    }
  }

  lemma JoinLast(l: string)
    ensures Join([l]) == l + "\n"
  {
    assert Join([l]) == l + "\n" + Join([]);
  }

  lemma JoinFive(l1: seq<string>, l2: seq<string>, l3: seq<string>, l4: seq<string>, l5: seq<string>)
    ensures Join(l1 + l2 + l3 + l4 + l5 + [""]) == Join(l1) + Join(l2) + Join(l3) + Join(l4) + Join(l5) + "\n"
  {
    JoinLast("");
    JoinAppend(l1 + l2 + l3 + l4 + l5, [""]);
    JoinAppend(l1 + l2 + l3 + l4, l5);
    JoinAppend(l1 + l2 + l3, l4);
    JoinAppend(l1 + l2, l3);
    JoinAppend(l1, l2);
  }

  /** A record is its field lines, each ended by LF, then an empty line. */
  lemma EncodeIsLines(f: Fields)
    ensures Encode(f) == Join(Lines(f) + [""])
  {
    PieceIsJoin("id:", f.id);
    PieceIsJoin("event:", f.event);
    PieceIsJoin("data:", DataText(f.data));
    PieceIsJoin("retry:", RetryText(f.retry));
    PieceIsJoin(":", f.comment);
    JoinFive(OptLine("id:", f.id), OptLine("event:", f.event), OptLine("data:", DataText(f.data)),
             OptLine("retry:", RetryText(f.retry)), OptLine(":", f.comment));
  }

  // ---- What a client makes of a record ---------------------------------------

  /** A field value survives the wire: one line, and no leading space for the reader to strip. */
  predicate LineSafe(v: Option<string>) {
    v.Some? ==> Json.NoLineBreak(v.value) && (v.value == "" || v.value[0] != ' ')
  }

  /** Payload fields that a client reads back as they were sent. */
  predicate Sendable(f: Fields) {
    LineSafe(f.id) && LineSafe(f.event) && (f.comment.Some? ==> Json.NoLineBreak(f.comment.value))
  }

  /** The client's last-event-ID buffer after reading the record's `id` line, if any. */
  function IdAfter(buffer: string, id: Option<string>): string {
    if id.Some? && '\0' !in id.value then id.value else buffer
  }

  function TypeOf(event: Option<string>): string {
    if event.Some? && event.value != "" then event.value else "message"
  }

  lemma ParseOne(p: Parser, l: string)
    ensures ParseLines(p, [l]) == ProcessLine(p, l)
  {
    assert [l][1..] == [];
  }

  lemma OptLineParse(p: Parser, name: string, v: Option<string>)
    requires name != [] && name[0] != ':' && ':' !in name
    requires v.Some? ==> v.value == "" || v.value[0] != ' '
    ensures ParseLines(p, OptLine(name + ":", v)) == if v.Some? then ProcessField(p, name, v.value) else p
  {
    if v.Some? {
      ParseOne(p, name + ":" + v.value);
      FieldLine(p, name, v.value);
    }
  }

  lemma StepId(p: Parser, id: Option<string>)
    requires LineSafe(id)
    ensures ParseLines(p, OptLine("id:", id)) == p.(lastEventIdBuffer := IdAfter(p.lastEventIdBuffer, id))
  {
    assert "id" + ":" == "id:";
    OptLineParse(p, "id", id);
  }

  lemma StepEvent(p: Parser, event: Option<string>)
    requires LineSafe(event)
    ensures ParseLines(p, OptLine("event:", event)) == if event.Some? then p.(eventType := event.value) else p
  {
    assert "event" + ":" == "event:";
    OptLineParse(p, "event", event);
  }

  lemma StepData(p: Parser, data: Option<Json.Json>)
    ensures ParseLines(p, OptLine("data:", DataText(data))) ==
            if data.Some? then p.(data := p.data + Json.Stringify(data.value) + "\n") else p
  {
    if data.Some? {
      Json.StringifyStart(data.value);
    }
    assert "data" + ":" == "data:";
    OptLineParse(p, "data", DataText(data));
  }

  lemma StepRetry(p: Parser, retry: Option<int>)
    ensures ParseLines(p, OptLine("retry:", RetryText(retry))) ==
            if retry.Some? && retry.value >= 0 then p.(reconnectionTime := Some(retry.value as nat)) else p
  {
    assert "retry" + ":" == "retry:";
    OptLineParse(p, "retry", RetryText(retry));
    if retry.Some? && retry.value >= 0 {
      Json.DecimalRoundTrip(retry.value);
    }
  }

  lemma StepComment(p: Parser, comment: Option<string>)
    ensures ParseLines(p, OptLine(":", comment)) == p
  {
    if comment.Some? {
      ParseOne(p, ":" + comment.value);
      CommentLine(p, comment.value);
    }
  }

  lemma ParseFive(p: Parser, l1: seq<string>, l2: seq<string>, l3: seq<string>, l4: seq<string>, l5: seq<string>)
    ensures ParseLines(p, l1 + l2 + l3 + l4 + l5 + [""]) ==
            ProcessLine(ParseLines(ParseLines(ParseLines(ParseLines(ParseLines(p, l1), l2), l3), l4), l5), "")
  {
    ParseLinesAppend(p, l1 + l2 + l3 + l4 + l5, [""]);
    ParseLinesAppend(p, l1 + l2 + l3 + l4, l5);
    ParseLinesAppend(p, l1 + l2 + l3, l4);
    ParseLinesAppend(p, l1 + l2, l3);
    ParseLinesAppend(p, l1, l2);
    ParseOne(ParseLines(p, l1 + l2 + l3 + l4 + l5), "");
  }

  lemma PlainAppend(a: seq<string>, b: seq<string>)
    requires AllLinesPlain(a) && AllLinesPlain(b)
    ensures AllLinesPlain(a + b)
  {
    forall i | 0 <= i < |a + b| ensures Json.NoLineBreak((a + b)[i]) {
      if i >= |a| {
        assert (a + b)[i] == b[i - |a|];
      }
    }
  }

  lemma LinesPlain(f: Fields)
    requires Sendable(f)
    ensures AllLinesPlain(Lines(f) + [""])
  {
    if f.data.Some? {
      Json.StringifyNoLineBreak(f.data.value);
    }
    if f.retry.Some? {
      assert Json.NoLineBreak(Json.IntToString(f.retry.value)) by {
        if f.retry.value >= 0 {
          var t := Json.IntToString(f.retry.value);
          assert forall i :: 0 <= i < |t| ==> t[i] != '\n' && t[i] != '\r';
        } else {
          var t := Json.NatToString(-f.retry.value);
          assert forall i :: 0 <= i < |t| ==> t[i] != '\n' && t[i] != '\r';
          assert Json.IntToString(f.retry.value) == "-" + t;
        }
      }
    }
    var l1, l2, l3 := OptLine("id:", f.id), OptLine("event:", f.event), OptLine("data:", DataText(f.data));
    var l4, l5 := OptLine("retry:", RetryText(f.retry)), OptLine(":", f.comment);
    PlainAppend(l1, l2);
    PlainAppend(l1 + l2, l3);
    PlainAppend(l1 + l2 + l3, l4);
    PlainAppend(l1 + l2 + l3 + l4, l5);
    PlainAppend(l1 + l2 + l3 + l4 + l5, [""]);
  }

  /** The interpreter's state once it has read a record's field lines. */
  function FieldsRead(p: Parser, f: Fields): Parser {
    p.(lastEventIdBuffer := IdAfter(p.lastEventIdBuffer, f.id),
       eventType := if f.event.Some? then f.event.value else p.eventType,
       data := if f.data.Some? then p.data + Json.Stringify(f.data.value) + "\n" else p.data,
       reconnectionTime := if f.retry.Some? && f.retry.value >= 0 then Some(f.retry.value as nat) else p.reconnectionTime)
  }

  lemma {:induction false} ParseRecordLines(p: Parser, f: Fields)
    requires Sendable(f)
    ensures Parse(p, Encode(f)) == Dispatch(FieldsRead(p, f))
  {
    EncodeIsLines(f);
    LinesPlain(f);
    ParseJoin(p, Lines(f) + [""]);
    var l1, l2, l3 := OptLine("id:", f.id), OptLine("event:", f.event), OptLine("data:", DataText(f.data));
    var l4, l5 := OptLine("retry:", RetryText(f.retry)), OptLine(":", f.comment);
    ParseFive(p, l1, l2, l3, l4, l5);
    StepId(p, f.id);
    var q1 := ParseLines(p, l1);
    StepEvent(q1, f.event);
    var q2 := ParseLines(q1, l2);
    StepData(q2, f.data);
    var q3 := ParseLines(q2, l3);
    StepRetry(q3, f.retry);
    var q4 := ParseLines(q3, l4);
    StepComment(q4, f.comment);
    assert q4 == FieldsRead(p, f);
  }

  /**
   * What a client makes of one record written by a lib service, read between two
   * records: a `data` field dispatches exactly one event whose data is the JSON text,
   * typed by `event` ("message" when absent or empty) and carrying the ID from `id`;
   * a non-negative `retry` becomes the reconnection time; nothing is left half-read.
   */
  lemma ReceiveRecord(p: Parser, f: Fields)
    requires AtBoundary(p) && Sendable(f)
    ensures Parse(p, Encode(f)).lastEventId == IdAfter(p.lastEventIdBuffer, f.id)
    ensures Parse(p, Encode(f)).lastEventIdBuffer == IdAfter(p.lastEventIdBuffer, f.id)
    ensures Parse(p, Encode(f)).reconnectionTime ==
            if f.retry.Some? && f.retry.value >= 0 then Some(f.retry.value as nat) else p.reconnectionTime
    ensures Parse(p, Encode(f)).dispatched ==
            p.dispatched + if f.data.Some?
                           then [Event(TypeOf(f.event), Json.Stringify(f.data.value), IdAfter(p.lastEventIdBuffer, f.id))]
                           else []
    ensures AtBoundary(Parse(p, Encode(f)))
  {
    ParseRecordLines(p, f);
    var q := FieldsRead(p, f);
    if f.data.Some? {
      var t := Json.Stringify(f.data.value);
      assert q.data == t + "\n";
      assert (t + "\n")[..|t|] == t;
    }
  }

  /** A record with no `data` field dispatches nothing. */
  lemma RecordWithoutDataDispatchesNothing(p: Parser, f: Fields)
    requires AtBoundary(p) && Sendable(f) && f.data.None?
    ensures Parse(p, Encode(f)).dispatched == p.dispatched
  {
    ReceiveRecord(p, f);
  }

  /** A package record reads as the lib record of its truthy fields. */
  lemma ReceiveTruthyRecord(p: Parser, f: Fields)
    requires AtBoundary(p) && Sendable(f)
    ensures Parse(p, EncodeTruthy(f)).dispatched ==
            p.dispatched + if f.data.Some? && Json.Truthy(f.data.value)
                           then [Event(TypeOf(f.event), Json.Stringify(f.data.value),
                                       IdAfter(p.lastEventIdBuffer, TruthyFields(f).id))]
                           else []
    ensures Parse(p, EncodeTruthy(f)).reconnectionTime ==
            if f.retry.Some? && f.retry.value > 0 then Some(f.retry.value as nat) else p.reconnectionTime
    ensures AtBoundary(Parse(p, EncodeTruthy(f)))
  {
    EncodeTruthyFiltersFalsy(f);
    ReceiveRecord(p, TruthyFields(f));
  }

  /** `resetEventId` empties the client's last event ID and dispatches nothing. */
  lemma ReceiveReset(p: Parser)
    requires AtBoundary(p)
    ensures Parse(p, ResetRecord) == p.(lastEventIdBuffer := "", lastEventId := "")
  {
    var lines := ["id", ""];
    assert Join(lines) == ResetRecord by {
      JoinLast("");
      assert Join(lines) == "id" + "\n" + Join([""]);
    }
    assert AllLinesPlain(lines);
    ParseJoin(p, lines);
    assert ColonIndex("id") == 2 by {
      assert "id"[1..] == "d";
      assert "d"[1..] == "";
    }
    var q := ProcessLine(p, "id");
    assert q == p.(lastEventIdBuffer := "");
    assert ParseLines(p, lines) == ParseLines(q, [""]) by {
      assert lines[1..] == [""];
    }
    ParseOne(q, "");
  }

  /** A comment record changes nothing but the last event ID, which it re-confirms. */
  lemma ReceiveComment(p: Parser, text: string)
    requires AtBoundary(p) && Json.NoLineBreak(text)
    ensures Parse(p, ":" + text + "\n\n") == p.(lastEventId := p.lastEventIdBuffer)
  {
    var lines := [":" + text, ""];
    assert Join(lines) == ":" + text + "\n\n" by {
      JoinLast("");
      assert Join(lines) == ":" + text + "\n" + Join([""]);
    }
    assert AllLinesPlain(lines);
    ParseJoin(p, lines);
    CommentLine(p, text);
    assert ParseLines(p, lines) == ParseLines(p, [""]) by {
      assert lines[1..] == [""];
    }
    ParseOne(p, "");
  }

  /** Both heartbeats are comment records. */
  lemma HeartbeatRecords()
    ensures Encode(LibHeartbeat) == FlushComment
    ensures EncodeTruthy(PackageHeartbeat) == ":" + HeartbeatMessage + "\n\n"
  {
  }

  lemma QuotedHelloWorld()
    ensures Json.Quote("hello") == "\"hello\"" && Json.Quote("world") == "\"world\""
  {
    Json.QuotePlain("hello");
    Json.QuotePlain("world");
  }

  lemma HelloWorldJson()
    ensures Json.Stringify(Json.JObject([("hello", Json.JString("world"))])) == "{\"hello\":\"world\"}"
  {
    Json.StringifySingleMember("hello", Json.JString("world"));
    QuotedHelloWorld();
    HelloWorldText();
  }

  lemma HelloWorldText()
    ensures "{" + "\"hello\"" + ":" + "\"world\"" + "}" == "{\"hello\":\"world\"}"
  {
  }

  lemma HundredText()
    ensures Json.IntToString(100) == "100"
  {
    assert Json.NatToString(1) == "1";
    assert Json.NatToString(10) == "10";
    assert Json.NatToString(100) == Json.NatToString(10) + "0";
  }

  /** The payload of the lib service's unit test for a record with every field set. */
  const FullExample: Fields :=
    Fields(Some("2347"), Some("connection"), Some(Json.JObject([("hello", Json.JString("world"))])),
           Some(100), Some("hey, there !"))

  lemma FullExampleData()
    ensures Piece("data:", DataText(FullExample.data)) == "data:{\"hello\":\"world\"}\n"
  {
    HelloWorldJson();
    assert DataText(FullExample.data) == Some("{\"hello\":\"world\"}");
    FullExampleTexts();
  }

  /** The literal pieces of the full record. */
  lemma FullExampleTexts()
    ensures "data:" + "{\"hello\":\"world\"}" + "\n" == "data:{\"hello\":\"world\"}\n"
    ensures "id:" + "2347" + "\n" == "id:2347\n"
    ensures "event:" + "connection" + "\n" == "event:connection\n"
    ensures ":" + "hey, there !" + "\n" == ":hey, there !\n"
    ensures "retry:" + "100" + "\n" == "retry:100\n"
  {
  }

  lemma FullExampleRetry()
    ensures Piece("retry:", RetryText(FullExample.retry)) == "retry:100\n"
  {
    HundredText();
    FullExampleTexts();
  }

  /** The record that unit test expects on the wire. */
  lemma FullRecordExample()
    ensures Encode(FullExample)
            == "id:2347\n" + "event:connection\n" + "data:{\"hello\":\"world\"}\n" + "retry:100\n"
               + ":hey, there !\n" + "\n"
  {
    FullExampleData();
    FullExampleRetry();
    FullExampleTexts();
  }
}
