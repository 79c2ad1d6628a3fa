/**
 * How a client interprets an event stream: section 9.2.6 ("Interpreting an event
 * stream") of the WHATWG HTML Living Standard, for a complete stream already
 * decoded to characters (the UTF-8 decoding and the leading byte-order mark are
 * not modelled). This is the reference every encoder in the model is checked
 * against: what the browser's EventSource makes of the bytes a service writes.
 */
module EventStream {
  import opened Wrappers
  import Json

  /** A dispatched MessageEvent: its type, data and lastEventId. */
  datatype Event = Event(eventType: string, data: string, lastEventId: string)

  /** The interpreter's buffers, the EventSource's own state, and the events dispatched so far. */
  datatype Parser = Parser(
    eventType: string,
    data: string,
    lastEventIdBuffer: string,
    lastEventId: string,
    reconnectionTime: Option<nat>,
    dispatched: seq<Event>)

  const Initial: Parser := Parser("", "", "", "", None, [])

  /** Between two records: nothing half-accumulated. */
  predicate AtBoundary(p: Parser) {
    p.data == "" && p.eventType == ""
  }

  predicate IsBreak(c: char) {
    c == '\n' || c == '\r'
  }

  /** Index of the first CR or LF, or the length when there is none. */
  function LineEnd(s: string): (i: nat)
    ensures i <= |s| && Json.NoLineBreak(s[..i])
    ensures i < |s| ==> IsBreak(s[i])
  {
    if s == [] || IsBreak(s[0]) then 0
    else
      var j := LineEnd(s[1..]);
      assert s[..1 + j] == [s[0]] + s[1..][..j];
      1 + j
  }

  /**
   * The complete lines of a stream; a line ends at CRLF, at a lone LF or at a
   * lone CR. Characters after the last line break are pending and not yet a line.
   */
  function SplitLines(s: string): seq<string>
    decreases |s|
  {
    var i := LineEnd(s);
    if i == |s| then []
    else
      var next := if s[i] == '\r' && i + 1 < |s| && s[i + 1] == '\n' then i + 2 else i + 1;
      [s[..i]] + SplitLines(s[next..])
  }

  /** Lines each terminated by LF, the form every encoder here produces. */
  function Join(lines: seq<string>): string {
    if lines == [] then "" else lines[0] + "\n" + Join(lines[1..])
  }

  predicate AllLinesPlain(lines: seq<string>) {
    forall i :: 0 <= i < |lines| ==> Json.NoLineBreak(lines[i])
  }

  /** Index of the first colon, or the length when there is none. */
  function ColonIndex(s: string): (i: nat)
    ensures i <= |s| && ':' !in s[..i]
    ensures i < |s| ==> s[i] == ':'
  {
    if s == [] || s[0] == ':' then 0
    else
      var j := ColonIndex(s[1..]);
      assert s[..1 + j] == [s[0]] + s[1..][..j];
      1 + j
  }

  function StripLeadingSpace(v: string): string {
    if v != [] && v[0] == ' ' then v[1..] else v
  }

  /** "Process the field": field names are compared literally. */
  function ProcessField(p: Parser, name: string, value: string): Parser {
    if name == "event" then p.(eventType := value)
    else if name == "data" then p.(data := p.data + value + "\n")
    else if name == "id" then (if '\0' in value then p else p.(lastEventIdBuffer := value))
    else if name == "retry" then
      (if value != "" && Json.AllDigits(value)
       then p.(reconnectionTime := Some(Json.DecimalValue(value))) else p)
    else p
  }

  /** A `retry` field sets the reconnection time when its value is all ASCII digits, and is ignored otherwise. */
  lemma RetryField(p: Parser, value: string)
    ensures ProcessField(p, "retry", value)
            == if value != "" && Json.AllDigits(value) then p.(reconnectionTime := Some(Json.DecimalValue(value))) else p
  {
  }

  /** "Dispatch the event" when a blank line is seen. */
  function Dispatch(p: Parser): Parser {
    var q := p.(lastEventId := p.lastEventIdBuffer);
    if q.data == "" then q.(data := "", eventType := "")
    else
      var data := if q.data[|q.data| - 1] == '\n' then q.data[..|q.data| - 1] else q.data;
      var eventType := if q.eventType == "" then "message" else q.eventType;
      q.(dispatched := q.dispatched + [Event(eventType, data, q.lastEventId)], data := "", eventType := "")
  }

  function ProcessLine(p: Parser, line: string): Parser {
    if line == "" then Dispatch(p)
    else if line[0] == ':' then p
    else
      var c := ColonIndex(line);
      if c < |line| then ProcessField(p, line[..c], StripLeadingSpace(line[c + 1..]))
      else ProcessField(p, line, "")
  }

  function ParseLines(p: Parser, lines: seq<string>): Parser
    decreases |lines|
  {
    if lines == [] then p else ParseLines(ProcessLine(p, lines[0]), lines[1..])
  }

  /** Feeds a whole stream to the interpreter. */
  function Parse(p: Parser, s: string): Parser {
    ParseLines(p, SplitLines(s))
  }

  // ---- Line splitting and concatenation -------------------------------------

  lemma {:induction false} LineEndAt(l: string, t: string)
    requires Json.NoLineBreak(l) && t != [] && IsBreak(t[0])
    ensures LineEnd(l + t) == |l|
  {
    if l != [] {
      assert (l + t)[1..] == l[1..] + t;
      assert l[0] in l;
      LineEndAt(l[1..], t);
    }
  }

  lemma {:induction false} JoinAppend(a: seq<string>, b: seq<string>)
    ensures Join(a + b) == Join(a) + Join(b)
  {
    if a != [] {
      assert (a + b)[1..] == a[1..] + b;
      JoinAppend(a[1..], b);
    } else {
      assert a + b == b;
    }
  }

  /** Splitting LF-terminated lines gives those lines back. */
  lemma {:induction false} SplitJoin(lines: seq<string>)
    requires AllLinesPlain(lines)
    ensures SplitLines(Join(lines)) == lines
  {
    if lines != [] {
      var l, rest := lines[0], Join(lines[1..]);
      var s := Join(lines);
      assert s == l + ("\n" + rest);
      LineEndAt(l, "\n" + rest);
      assert s[..|l|] == l;
      assert s[|l| + 1..] == rest;
      SplitJoin(lines[1..]);
    }
  }

  lemma {:induction false} ParseLinesAppend(p: Parser, a: seq<string>, b: seq<string>)
    ensures ParseLines(p, a + b) == ParseLines(ParseLines(p, a), b)
    decreases |a|
  {
    if a != [] {
      assert (a + b)[1..] == a[1..] + b;
      ParseLinesAppend(ProcessLine(p, a[0]), a[1..], b);
    } else {
      assert a + b == b;
    }
  }

  /** Interpreting LF-terminated lines is interpreting them one by one. */
  lemma ParseJoin(p: Parser, lines: seq<string>)
    requires AllLinesPlain(lines)
    ensures Parse(p, Join(lines)) == ParseLines(p, lines)
  {
    SplitJoin(lines);
  }

  /** Two streams of whole lines, written one after the other, are interpreted in sequence. */
  lemma ParseConcat(p: Parser, a: seq<string>, b: seq<string>)
    requires AllLinesPlain(a) && AllLinesPlain(b)
    ensures Parse(p, Join(a) + Join(b)) == Parse(Parse(p, Join(a)), Join(b))
  {
    JoinAppend(a, b);
    assert AllLinesPlain(a + b);
    SplitJoin(a + b);
    SplitJoin(a);
    SplitJoin(b);
    ParseLinesAppend(p, a, b);
  }

  // ---- Single lines ----------------------------------------------------------

  /** `name:value` with a colon-free name and a value not starting with a space. */
  lemma FieldLine(p: Parser, name: string, value: string)
    requires name != [] && name[0] != ':' && ':' !in name
    requires value == [] || value[0] != ' '
    ensures ProcessLine(p, name + ":" + value) == ProcessField(p, name, value)
  {
    var line := name + ":" + value;
    assert line[..|name|] == name;
    assert ColonIndex(line) == |name| by {
      assert line == name + (":" + value);
      ColonAt(name, ":" + value);
    }
    assert line[|name| + 1..] == value;
  }

  /** `name: value`: the single space after the colon is not part of the value. */
  lemma SpacedFieldLine(p: Parser, name: string, value: string)
    requires name != [] && name[0] != ':' && ':' !in name
    ensures ProcessLine(p, name + ": " + value) == ProcessField(p, name, value)
  {
    var line := name + ": " + value;
    assert line[..|name|] == name;
    assert ColonIndex(line) == |name| by {
      assert line == name + (": " + value);
      ColonAt(name, ": " + value);
    }
    assert line[|name| + 1..] == " " + value;
  }

  lemma {:induction false} ColonAt(name: string, t: string)
    requires ':' !in name && t != [] && t[0] == ':'
    ensures ColonIndex(name + t) == |name|
  {
    if name != [] {
      assert (name + t)[1..] == name[1..] + t;
      assert name[0] in name;
      ColonAt(name[1..], t);
    }
  }

  /** A comment line changes nothing. */
  lemma CommentLine(p: Parser, text: string)
    ensures ProcessLine(p, ":" + text) == p
  {
  }
}
