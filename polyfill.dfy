/**
 * lib/middlewares/event-source-polyfill.js: a middleware for EventSource
 * polyfills that cannot set request headers. Before registration it copies the
 * `lastEventId` query parameter into the `Last-Event-ID` header when the header
 * is missing; after registration it sends the new connection a 2 KiB comment,
 * which some polyfills need before they deliver anything.
 */
module EventSourcePolyfill {
  import opened Wrappers
  import opened Utils
  import opened Maybe
  import opened Http
  import opened Records
  import opened Lifecycle
  import opened EventStream
  import opened LibSseId
  import Json
  import LibService

  /** `new Array(n).join(sep)`: the slots are empty, so only the `n - 1` separators remain. */
  function JoinEmptySlots(n: nat, sep: string): string {
    if n <= 1 then "" else JoinEmptySlots(n - 1, sep) + sep
  }

  /** The padding comment text. */
  const Padding: string := JoinEmptySlots(2049, " ")

  lemma {:induction false} JoinEmptySpaces(n: nat)
    ensures |JoinEmptySlots(n, " ")| == if n == 0 then 0 else n - 1
    ensures forall i :: 0 <= i < |JoinEmptySlots(n, " ")| ==> JoinEmptySlots(n, " ")[i] == ' '
  {
    if n > 1 {
      JoinEmptySpaces(n - 1);
    }
  }

  /** The padding is exactly 2048 spaces. */
  lemma PaddingIsSpaces()
    ensures |Padding| == 2048
    ensures forall i :: 0 <= i < |Padding| ==> Padding[i] == ' '
  {
    JoinEmptySpaces(2049);
  }

  /** `URL.parse(req.url, true).query.lastEventId` when it is a string; a repeated key gives a list. */
  function QueryLastEventId(query: map<string, QueryValue>): (r: Option<string>)
    ensures r.Some? <==> "lastEventId" in query && query["lastEventId"].QString?
    ensures r.Some? ==> r.value == query["lastEventId"].s
  {
    if "lastEventId" in query && query["lastEventId"].QString? then Some(query["lastEventId"].s) else None
  }

  /** The headers `beforeRegister` leaves: the query value is copied only into a missing header. */
  function CopyLastEventId(headers: Headers, query: map<string, QueryValue>): Headers {
    var q := QueryLastEventId(query);
    if "last-event-id" !in headers && q.Some? then headers["last-event-id" := q.value] else headers
  }

  /**
   * The header is added exactly when it was missing and the query holds a
   * string; an existing header is never overwritten and no other header changes.
   */
  lemma CopyLastEventIdEffect(headers: Headers, query: map<string, QueryValue>)
    ensures var r := CopyLastEventId(headers, query);
            && (forall k :: k in headers ==> k in r && r[k] == headers[k])
            && (forall k :: k in r && k != "last-event-id" ==> k in headers)
            && ("last-event-id" in r && "last-event-id" !in headers <==> QueryLastEventId(query).Some?
                                                                         && "last-event-id" !in headers)
            && ("last-event-id" !in headers && QueryLastEventId(query).Some? ==>
                  r["last-event-id"] == QueryLastEventId(query).value)
  {
  }

  /**
   * What an SSEID then records as the last event ID: the client's header if it
   * sent one, else the query parameter, else nothing.
   */
  lemma PolyfilledLastEventId(headers: Headers, query: map<string, QueryValue>)
    ensures LastEventIdHeader(CopyLastEventId(headers, query)) ==
            if "last-event-id" in headers then Some(headers["last-event-id"]) else QueryLastEventId(query)
  {
  }

  /** `beforeRegister` as a hook of the waterfall: rewrite the headers, then `next()` with no error. */
  function BeforeRegister(headers: Headers, query: map<string, QueryValue>): (o: BeforeOutcome)
    ensures o.err.None?
    ensures o.headers == CopyLastEventId(headers, query)
  {
    BeforeOutcome(CopyLastEventId(headers, query), None)
  }

  /** `beforeRegister` on the request itself: `req.headers` is updated in place. */
  method CopyIntoRequest(req: Request) returns (err: Option<ErrorValue>)
    modifies req
    ensures BeforeOutcome(req.headers, err) == BeforeRegister(old(req.headers), req.query)
  {
    var q := QueryLastEventId(req.query);
    if "last-event-id" !in req.headers && q.Some? {
      req.headers := req.headers["last-event-id" := q.value];
    }
    err := None;
  }

  /** The payload `afterRegister` sends: `{comment: padding}`. */
  const PaddingPayload: SendPayload := Structured(Fields(None, None, None, None, Some(Padding)))

  /** `afterRegister`: send the padding to the new connection, with `next` as the callback. */
  function AfterRegister(bag: Bag): (s: AfterStep)
    ensures s == SendThen(PaddingPayload)
  {
    SendThen(PaddingPayload)
  }

  /** The middleware object; it has no synchronous hooks. */
  const Polyfill: Middleware := Middleware(Some(BeforeRegister), Some(AfterRegister), None, None)

  /** A payload with only a comment is written as that comment line and a blank line. */
  lemma CommentOnlyMessage(c: string)
    ensures Message(Structured(Fields(None, None, None, None, Some(c)))) == ":" + c + "\n\n"
  {
  }

  /** The padding goes out as one comment line followed by a blank line. */
  lemma PaddingRecord()
    ensures Message(PaddingPayload) == ":" + Padding + "\n\n"
  {
    CommentOnlyMessage(Padding);
  }

  /** A client skips the padding: it dispatches nothing and keeps its buffers. */
  lemma PaddingIsIgnored(p: Parser)
    requires AtBoundary(p)
    ensures Parse(p, Message(PaddingPayload)) == p.(lastEventId := p.lastEventIdBuffer)
  {
    PaddingIsSpaces();
    assert Json.NoLineBreak(Padding);
    PaddingRecord();
    ReceiveComment(p, Padding);
  }

  /**
   * Added last, the polyfill's `beforeRegister` runs after every other one, and
   * only if none of them failed; its `afterRegister` runs before every other one.
   */
  lemma PolyfillRunsLastBeforeFirstAfter(mws: seq<Middleware>, headers: Headers, query: map<string, QueryValue>)
    ensures |AfterChain(mws + [Polyfill])| == |AfterChain(mws)| + 1
    ensures AfterChain(mws + [Polyfill])[0] == AfterRegister
    ensures AfterChain(mws + [Polyfill])[1..] == AfterChain(mws)
    ensures var o := BeforeWaterfall(BeforeChain(mws), headers, query);
            BeforeWaterfall(BeforeChain(mws + [Polyfill]), headers, query) ==
            if o.err.Some? then o else BeforeOutcome(CopyLastEventId(o.headers, query), None)
  {
    LastAddedIsOutermost(mws, Polyfill);
    var o := BeforeWaterfall(BeforeChain(mws), headers, query);
    BeforeWaterfallAppend(BeforeChain(mws), [BeforeRegister], headers, query);
    var one: seq<BeforeHook> := [BeforeRegister];
    assert one[1..] == [];
    assert BeforeWaterfall(one, o.headers, query) == BeforeOutcome(CopyLastEventId(o.headers, query), None);
  }

  /**
   * The polyfill on its own: the header rewrite, then the padding written to the
   * new connection; the chain fails only if that write does.
   */
  lemma PolyfillAlone(headers: Headers, query: map<string, QueryValue>, bag: Bag, w: Wire)
    ensures BeforeWaterfall(BeforeChain([Polyfill]), headers, query) == BeforeOutcome(CopyLastEventId(headers, query), None)
    ensures LibService.AfterWaterfall(AfterChain([Polyfill]), bag, [Polyfill], w).wire == w.AfterWrite(Message(PaddingPayload))
    ensures LibService.AfterWaterfall(AfterChain([Polyfill]), bag, [Polyfill], w).err.None? <==> w.Writable()
  {
    PolyfillRunsLastBeforeFirstAfter([], headers, query);
    assert [] + [Polyfill] == [Polyfill];
    assert BeforeChain([]) == [] && AfterChain([]) == [];
    NoTransformIsIdentity([Polyfill], PaddingPayload);
    var hooks := AfterChain([Polyfill]);
    assert hooks == [AfterRegister];
    assert hooks[1..] == [];
  }

  /**
   * The waterfall as written with the polyfill added after another middleware
   * that has an `afterRegister` hook: the padding goes out, then that hook
   * receives `1` as its `next`, so the chain throws or stalls and neither
   * `connection` nor an error is emitted.
   */
  lemma PolyfillFirstBreaksChainAsWritten(mws: seq<Middleware>, bag: Bag, w: Wire)
    requires AfterChain(mws) != [] && w.Writable()
    requires TransformPayload(mws + [Polyfill], PaddingPayload).Returned?
    ensures var r := LibService.AfterWaterfallAsWritten(AfterChain(mws + [Polyfill]), bag, mws + [Polyfill], w, true);
            r.Crashed? || r.Stalled?
  {
    PolyfillRunsLastBeforeFirstAfter(mws, map[], map[]);
    var all := mws + [Polyfill];
    var hooks := AfterChain(all);
    var rest := hooks[1..];
    var w1 := w.AfterWrite(LibService.Outgoing(all, PaddingPayload));
    assert hooks[0](bag) == SendThen(PaddingPayload);
    assert LibService.AfterWaterfallAsWritten(hooks, bag, all, w, true)
        == LibService.AfterWaterfallAsWritten(rest, bag, all, w1, false);
    assert rest != [];
  }
}
