/**
 * The parts of Node's `IncomingMessage` and `ServerResponse` that the services
 * use, as plain state: request headers and query, and a response that records its
 * status line, headers and every chunk written to it. Sockets, buffering and
 * header validation are not modelled.
 */
module Http {
  import opened Wrappers
  import opened Utils
  import opened Maybe

  type Headers = map<string, string>

  /** A query-string value as `URL.parse(url, true)` yields it: one string, or a list for a repeated key. */
  datatype QueryValue = QString(s: string) | QList(items: seq<string>)

  class Request {
    /** `req.headers`, keyed by lower-case header name; middlewares may rewrite it. */
    var headers: Headers
    /** `URL.parse(req.url, true).query`, taken as given. */
    const query: map<string, QueryValue>

    constructor (headers: Headers, query: map<string, QueryValue>)
      ensures this.headers == headers && this.query == query
    {
      this.headers := headers;
      this.query := query;
    }
  }

  /** What the package service stores under `res.locals.sse`. */
  datatype SseLocals = SseLocals(lastEventId: Option<string>, sseId: object)

  /** The `res.locals` object: the consumers' metadata bag, plus the package's `sse` entry. */
  class Locals {
    var bag: Bag
    /** `res.locals.sse`; once defined it is non-writable and non-configurable. */
    var sse: Option<SseLocals>

    constructor ()
      ensures bag == map[] && sse == None
    {
      bag := map[];
      sse := None;
    }
  }

  /** The transport side of a response: its status line, headers and every chunk written. */
  datatype Wire = Wire(
    headersSent: bool,
    /** `res.finished`: `end()` has been called. */
    finished: bool,
    /** `res.socket.destroyed`. */
    destroyed: bool,
    /** The peer has gone away: the next write or end reports an error. */
    failing: bool,
    statusCode: int,
    headers: Headers,
    /** Every chunk written, including the one passed to `end`. */
    output: seq<string>)
  {
    predicate Writable() {
      !finished && !destroyed && !failing
    }

    function WriteError(): ErrorValue {
      if finished then ErrorValue("Error", "write after end")
      else if destroyed then ErrorValue("Error", "Cannot call write after a stream was destroyed")
      else ErrorValue("Error", "write EPIPE")
    }

    /** `writeHead(status, hs)`: only the first call has an effect (later ones throw). */
    function AfterWriteHead(status: int, hs: Headers): Wire {
      if headersSent then this else this.(headersSent := true, statusCode := status, headers := hs)
    }

    /** `write(chunk)`: the chunk goes out if the response is writable. */
    function AfterWrite(chunk: string): Wire {
      if Writable() then this.(output := output + [chunk], headersSent := true) else this
    }

    /** `end(chunk)`: finishes the response, unless it already is finished or its socket destroyed. */
    function AfterEnd(chunk: Option<string>): Wire {
      if finished || destroyed then this
      else if failing then this.(finished := true, headersSent := true)
      else this.(output := output + (if chunk.Some? then [chunk.value] else []), finished := true, headersSent := true)
    }
  }

  /** What `writeHead` throws once the headers are out. */
  const HeadersSentError := ErrorValue("Error", "Cannot write headers after they are sent to the client")

  /** A response nothing has been sent on yet. */
  const FreshWire: Wire := Wire(false, false, false, false, 200, map[], [])

  /** What has been sent stays sent: every operation only appends to the output. */
  lemma OutputOnlyGrows(w: Wire, status: int, hs: Headers, chunk: string, last: Option<string>)
    ensures w.output <= w.AfterWriteHead(status, hs).output
    ensures w.output <= w.AfterWrite(chunk).output
    ensures w.output <= w.AfterEnd(last).output
  {
  }

  /** Once ended, a response takes no more output and stays ended. */
  lemma EndIsFinal(w: Wire, chunk: string, last: Option<string>)
    requires w.finished
    ensures w.AfterWrite(chunk) == w && w.AfterEnd(last) == w
    ensures !w.AfterWrite(chunk).Writable()
  {
  }

  class Response {
    var wire: Wire
    /**
     * `res.locals`; `null` when the response has no own `locals` property. An own
     * `locals` property holding `null`, which `hasOwnProperty` keeps, is not
     * represented.
     */
    var locals: Locals?
    /** `internal(res).sseId`, the lib service's back-link from a response to its ID. */
    var sseId: object?

    constructor (locals: Locals?)
      ensures wire == FreshWire && this.locals == locals && sseId == null
    {
      wire := FreshWire;
      this.locals := locals;
      sseId := null;
    }

    /** `res.writeHead(status, headers)`; throws once headers are sent. */
    method WriteHead(status: int, hs: Headers) returns (thrown: Option<ErrorValue>)
      modifies this
      ensures wire == old(wire).AfterWriteHead(status, hs)
      ensures thrown.Some? <==> old(wire.headersSent)
      ensures thrown.Some? ==> thrown.value == HeadersSentError
      ensures locals == old(locals) && sseId == old(sseId)
    {
      if wire.headersSent {
        thrown := Some(HeadersSentError);
      } else {
        wire := wire.AfterWriteHead(status, hs);
        thrown := None;
      }
    }

    /** `res.write(chunk, cb)`: the chunk goes out, or `cb` receives an error. */
    method Write(chunk: string) returns (err: ErrorObject?)
      modifies this
      ensures wire == old(wire).AfterWrite(chunk)
      ensures err == null <==> old(wire).Writable()
      ensures err != null ==> fresh(err) && err.Value() == old(wire).WriteError()
      ensures locals == old(locals) && sseId == old(sseId)
    {
      if wire.Writable() {
        wire := wire.AfterWrite(chunk);
        err := null;
      } else {
        err := new ErrorObject(wire.WriteError());
      }
    }

    /** `res.end(chunk, cb)`: finishes the response; `cb` receives an error if the transport fails. */
    method End(chunk: Option<string>) returns (err: ErrorObject?)
      modifies this
      ensures wire == old(wire).AfterEnd(chunk)
      ensures err == null <==> old(wire).Writable()
      ensures err != null ==> fresh(err) && err.Value() == old(wire).WriteError()
      ensures locals == old(locals) && sseId == old(sseId)
    {
      if wire.Writable() {
        err := null;
      } else {
        err := new ErrorObject(wire.WriteError());
      }
      wire := wire.AfterEnd(chunk);
    }
  }
}
