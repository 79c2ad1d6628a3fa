/**
 * The lib service (lib/sse-service.js together with the private methods bound to
 * it in lib/sse-service-private-methods.js): it keeps the active connections in a
 * map from SSEID to response, registers new connections through the middleware
 * lifecycle, and applies writes and unregistrations to the connections a target
 * selects.
 *
 * Every asynchronous step (`process.nextTick`, the callbacks of `res.write` and
 * `res.end`, `async.parallel` and `async.waterfall`) is run to completion in
 * order; what the service emits and the callbacks it calls are appended to `log`.
 */
module LibService {
  import opened Wrappers
  import opened Utils
  import opened Maybe
  import opened Http
  import opened Records
  import opened Lifecycle
  import opened Targets
  import Json
  import opened LibSseId
  import opened FanOut
  import opened SseRequest

  /** Seconds between two heartbeat comments. */
  const HeartbeatInterval: nat := 15

  /** The `instanceof` assertion of `isConnectionActive` (chai's wording is not modelled). */
  const NotAnIdError := ErrorValue("AssertionError", "expected an instance of SSEID")

  const SetupErrorName := "setupHTTPResponseError"

  const BeforeRegisterFailure := "Error in 'beforeRegister' middleware"
  const AfterRegisterFailure := "Error in 'afterRegister' middleware"
  const RegisterFailure := "Could not register connection"

  /** What calling `assert.isObjectOrString` throws: lib/utils/assert.js does not define it. */
  const NoIsObjectOrString := ErrorValue("TypeError", "assert.isObjectOrString is not a function")

  /** The heartbeat `setInterval`, until `close` clears it. */
  datatype Timer = Running(seconds: nat) | Cleared

  /** What the service emits, and the callbacks of its callers that it calls. */
  datatype Emitted =
    | Connection(id: SSEID)
    | ClientClose(id: SSEID)
    | ErrorEvent(error: ErrorValue)
    | Called(fn: FnId, err: Option<ErrorValue>, count: Option<nat>)

  // ---- Which connections a target selects --------------------------------------

  /** Whether a resolved target selects connection `id`. */
  predicate Selects(t: Resolved<SSEID>, id: SSEID)
    reads id.res, id.res.locals
  {
    match t
    case OneId(o) => o == id
    case Matching(p) => p.call(BagOf(id.res))
    case Everyone => true
  }

  /** The IDs of `ids` that `t` selects, in order. */
  function Filter(ids: seq<SSEID>, t: Resolved<SSEID>): seq<SSEID>
    reads set x | x in ids :: x.res
    reads set x | x in ids :: x.res.locals
  {
    if ids == [] then []
    else
      var last := ids[|ids| - 1];
      assert forall x :: x in ids[..|ids| - 1] ==> x in ids;
      assert ids == ids[..|ids| - 1] + [last];
      Filter(ids[..|ids| - 1], t) + (if Selects(t, last) then [last] else [])
  }

  /** The selection holds exactly the IDs the target selects. */
  lemma {:induction false} FilterMembers(ids: seq<SSEID>, t: Resolved<SSEID>)
    ensures forall x :: x in Filter(ids, t) ==> x in ids && Selects(t, x)
    ensures forall x :: x in ids && Selects(t, x) ==> x in Filter(ids, t)
  {
    if ids != [] {
      var init := ids[..|ids| - 1];
      assert ids == init + [ids[|ids| - 1]];
      FilterMembers(init, t);
    }
  }

  lemma {:induction false} FilterDistinct(ids: seq<SSEID>, t: Resolved<SSEID>)
    requires Distinct(ids)
    ensures Distinct(Filter(ids, t))
  {
    if ids != [] {
      var init := ids[..|ids| - 1];
      assert Distinct(init) by {
        forall i, j | 0 <= i < j < |init| ensures init[i] != init[j] {
          assert init[i] == ids[i] && init[j] == ids[j];
        }
      }
      FilterDistinct(init, t);
      FilterMembers(init, t);
      var last := ids[|ids| - 1];
      assert last !in init by {
        forall k | 0 <= k < |init| ensures init[k] != last {
          assert init[k] == ids[k];
        }
      }
    }
  }

  /** With distinct IDs, one ID selects itself once if it is there, and nothing otherwise. */
  lemma {:induction false} FilterOne(ids: seq<SSEID>, id: SSEID)
    requires Distinct(ids)
    ensures Filter(ids, OneId(id)) == if id in ids then [id] else []
  {
    if ids != [] {
      var init, last := ids[..|ids| - 1], ids[|ids| - 1];
      assert ids == init + [last];
      assert Distinct(init) by {
        forall i, j | 0 <= i < j < |init| ensures init[i] != init[j] {
          assert init[i] == ids[i] && init[j] == ids[j];
        }
      }
      FilterOne(init, id);
      if last == id {
        assert id !in init by {
          forall k | 0 <= k < |init| ensures init[k] != last {
            assert init[k] == ids[k];
          }
        }
      }
    }
  }

  lemma FilterEveryone(ids: seq<SSEID>)
    ensures Filter(ids, Everyone) == ids
  {
    if ids != [] {
      FilterEveryone(ids[..|ids| - 1]);
      assert ids == ids[..|ids| - 1] + [ids[|ids| - 1]];
    }
  }

  /** The responses of a sequence of IDs, in the same order. */
  function ResOf(ids: seq<SSEID>): (rs: seq<Response>)
    ensures |rs| == |ids| && forall i :: 0 <= i < |ids| ==> rs[i] == ids[i].res
  {
    seq(|ids|, i requires 0 <= i < |ids| => ids[i].res)
  }

  /** The events for a caller's callback: nothing for the default `() => null`. */
  function Report(cb: Fn, o: Outcome): (r: seq<Emitted>)
    ensures cb.id == DefaultCallback <==> r == []
    ensures r != [] ==> r == [Called(cb.id, if o.Failed? then Some(o.err) else None,
                                     if o.Targeted? then Some(o.count) else None)]
  {
    if cb.id == DefaultCallback then []
    else match o
      case Failed(e) => [Called(cb.id, Some(e), None)]
      case Targeted(n) => [Called(cb.id, None, Some(n))]
  }

  // ---- What `send` writes ----------------------------------------------------

  /**
   * The message `send` writes for `p`: the transformed payload's, or, when a
   * `transformSend` hook threw, the untransformed one's (the `catch` does not
   * leave `send`).
   */
  function Outgoing(mws: seq<Middleware>, p: SendPayload): (msg: string)
    ensures TransformPayload(mws, p).Threw? ==> msg == Message(p)
    ensures TransformPayload(mws, p).Returned? ==> msg == Message(TransformPayload(mws, p).value)
  {
    var t := TransformPayload(mws, p);
    Message(if t.Returned? then t.value else p)
  }

  /** The call `process.nextTick(() => cb(e))` makes when a transform threw; only a function `cb` is called. */
  function TransformFailure(mws: seq<Middleware>, p: SendPayload, cb: Arg<object>): (r: seq<Emitted>)
    ensures r != [] <==> TransformPayload(mws, p).Threw? && cb.Func?
    ensures r != [] ==> r == [Called(cb.f.id, Some(TransformPayload(mws, p).error), None)]
  {
    var t := TransformPayload(mws, p);
    if t.Threw? && cb.Func? then [Called(cb.f.id, Some(t.error), None)] else []
  }

  /** Without `transformSend` hooks, `send` writes the payload's own message and calls nothing early. */
  lemma SendWithoutTransforms(mws: seq<Middleware>, p: SendPayload, cb: Arg<object>)
    requires forall i :: 0 <= i < |mws| ==> mws[i].transformSend.None?
    ensures Outgoing(mws, p) == Message(p)
    ensures TransformFailure(mws, p, cb) == []
  {
    NoTransformIsIdentity(mws, p);
  }

  /** A transform added by a later `use` sees what the earlier ones made of the payload. */
  lemma SendAppliesLaterTransformLast(mws: seq<Middleware>, m: Middleware, p: SendPayload)
    requires m.transformSend.Some?
    requires TransformPayload(mws, p).Returned?
    requires m.transformSend.value(TransformPayload(mws, p).value).Returned?
    ensures Outgoing(mws + [m], p) == Message(m.transformSend.value(TransformPayload(mws, p).value).value)
  {
    LaterTransformRunsLast(mws, m, p);
  }

  // ---- Registration ----------------------------------------------------------

  /** The response state and the error a registration step hands to its callback. */
  datatype Progress = Progress(wire: Wire, err: Option<ErrorValue>)

  /**
   * What `_setupHTTPResponse` leaves: the response, the error its callback
   * receives, and what it throws to its own caller.
   */
  datatype Setup = Setup(wire: Wire, err: Option<ErrorValue>, escaped: Option<ErrorValue>)

  /**
   * `_setupHTTPResponse`: the (transformed) SSE headers with status 200, then
   * the flushing comment. If a header transform or `writeHead` throws, the
   * callback is scheduled with the wrapped error and a 500 ends the response;
   * when the headers are already out, that second `writeHead` throws as well,
   * so `end()` is never reached and the throw leaves the function.
   */
  function SetupResponse(mws: seq<Middleware>, w: Wire): Setup {
    var hs := TransformHeaders(mws, SseHttpResponseHeaders);
    if hs.Threw? || w.headersSent then
      var e := if hs.Threw? then hs.error else HeadersSentError;
      var err := Some(Wrapped(e, "Could not send status code and headers", Some(SetupErrorName)));
      if w.headersSent then Setup(w, err, Some(HeadersSentError))
      else Setup(w.AfterWriteHead(500, map[]).AfterEnd(None), err, None)
    else
      var w1 := w.AfterWriteHead(200, hs.value);
      Setup(w1.AfterWrite(FlushComment),
            if w1.Writable() then None
            else Some(Wrapped(w1.WriteError(), "Could not send initial heartbeat payload", Some(SetupErrorName))),
            None)
  }

  /** On a fresh response, setup sends status 200 with the transformed headers and flushes one comment. */
  lemma SetupOnFreshResponse(mws: seq<Middleware>)
    requires TransformHeaders(mws, SseHttpResponseHeaders).Returned?
    ensures SetupResponse(mws, FreshWire).err.None? && SetupResponse(mws, FreshWire).escaped.None?
    ensures SetupResponse(mws, FreshWire).wire.statusCode == 200
    ensures SetupResponse(mws, FreshWire).wire.headers == TransformHeaders(mws, SseHttpResponseHeaders).value
    ensures SetupResponse(mws, FreshWire).wire.output == [FlushComment]
    ensures SetupResponse(mws, FreshWire).wire.Writable()
  {
  }

  /** Without header transforms, the headers sent are the SSE headers themselves. */
  lemma SetupSendsSseHeaders(mws: seq<Middleware>)
    requires forall i :: 0 <= i < |mws| ==> mws[i].transformResponseHeaders.None?
    ensures SetupResponse(mws, FreshWire).wire.headers == SseHttpResponseHeaders
  {
    SelectSkipsMissing(mws, PickHeaders);
    ComposeEmpty(SseHttpResponseHeaders);
  }

  /**
   * A failed setup names its error `setupHTTPResponseError`. A throwing header
   * transform on a response whose headers are not out ends the response; once
   * the headers are out, the response is left as it was and `writeHead`'s
   * throw escapes. Nothing escapes otherwise.
   */
  lemma SetupFailureEnds(mws: seq<Middleware>, w: Wire)
    requires SetupResponse(mws, w).err.Some?
    ensures SetupResponse(mws, w).err.value.name == SetupErrorName
    ensures TransformHeaders(mws, SseHttpResponseHeaders).Threw? && !w.headersSent ==>
              SetupResponse(mws, w).wire.finished || SetupResponse(mws, w).wire.destroyed
    ensures w.headersSent ==> SetupResponse(mws, w).wire == w && SetupResponse(mws, w).escaped == Some(HeadersSentError)
    ensures SetupResponse(mws, w).escaped.Some? <==> w.headersSent
  {
  }

  /**
   * One `afterRegister` hook: `next(err)`, or `service.send(payload, sseId, next)`,
   * which writes the payload's message to the new connection and hands `next`
   * the transform's error, else the write's.
   */
  function AfterStepOn(step: AfterStep, mws: seq<Middleware>, w: Wire): Progress {
    match step
    case Continue(e) => Progress(w, e)
    case SendThen(p) =>
      var t := TransformPayload(mws, p);
      var msg := Outgoing(mws, p);
      Progress(w.AfterWrite(msg), if t.Threw? then Some(t.error) else ActionError(WriteChunk(msg), w))
  }

  /** The `afterRegister` waterfall: the hooks run in order until one passes an error. */
  function AfterWaterfall(hooks: seq<AfterHook>, bag: Bag, mws: seq<Middleware>, w: Wire): Progress
    decreases |hooks|
  {
    if hooks == [] then Progress(w, None)
    else
      var pr := AfterStepOn(hooks[0](bag), mws, w);
      if pr.err.Some? then pr else AfterWaterfall(hooks[1..], bag, mws, pr.wire)
  }

  /** The messages the hooks send, in order, when none of them fails. */
  function SentBy(hooks: seq<AfterHook>, bag: Bag, mws: seq<Middleware>): seq<string>
    decreases |hooks|
  {
    if hooks == [] then []
    else
      (match hooks[0](bag) case Continue(_) => [] case SendThen(p) => [Outgoing(mws, p)])
      + SentBy(hooks[1..], bag, mws)
  }

  /** A hook that neither fails nor has its transform throw. */
  predicate Smooth(step: AfterStep, mws: seq<Middleware>) {
    match step
    case Continue(e) => e.None?
    case SendThen(p) => TransformPayload(mws, p).Returned?
  }

  /**
   * On a writable response, hooks that do not fail reach the end of the chain
   * and the connection receives exactly their messages, in order.
   */
  lemma {:induction false} AfterWaterfallSends(hooks: seq<AfterHook>, bag: Bag, mws: seq<Middleware>, w: Wire)
    requires w.Writable()
    requires forall i :: 0 <= i < |hooks| ==> Smooth(hooks[i](bag), mws)
    ensures AfterWaterfall(hooks, bag, mws, w).err.None?
    ensures AfterWaterfall(hooks, bag, mws, w).wire.output == w.output + SentBy(hooks, bag, mws)
    ensures AfterWaterfall(hooks, bag, mws, w).wire.Writable()
    decreases |hooks|
  {
    if hooks != [] {
      var step := hooks[0](bag);
      assert Smooth(step, mws);
      var pr := AfterStepOn(step, mws, w);
      var head: seq<string> := match step case Continue(_) => [] case SendThen(p) => [Outgoing(mws, p)];
      assert pr.err.None? && pr.wire.Writable() && pr.wire.output == w.output + head by {
        match step
        case Continue(_) =>
        case SendThen(p) =>
          assert TransformPayload(mws, p).Returned?;
          assert pr.wire == w.AfterWrite(Outgoing(mws, p));
      }
      var rest := hooks[1..];
      assert forall i :: 0 <= i < |rest| ==> Smooth(rest[i](bag), mws) by {
        forall i | 0 <= i < |rest| ensures Smooth(rest[i](bag), mws) {
          assert rest[i] == hooks[i + 1];
        }
      }
      AfterWaterfallSends(rest, bag, mws, pr.wire);
      assert SentBy(hooks, bag, mws) == head + SentBy(rest, bag, mws);
      assert AfterWaterfall(hooks, bag, mws, w) == AfterWaterfall(rest, bag, mws, pr.wire);
    }
  }

  /** A hook that passes an error stops the chain: the later hooks send nothing. */
  lemma AfterWaterfallStops(hooks: seq<AfterHook>, bag: Bag, mws: seq<Middleware>, w: Wire, e: ErrorValue)
    requires hooks != [] && hooks[0](bag) == Continue(Some(e))
    ensures AfterWaterfall(hooks, bag, mws, w) == Progress(w, Some(e))
  {
  }

  // ---- The `afterRegister` waterfall as written --------------------------------

  /** How `async.waterfall` over the `afterRegister` hooks ends. */
  datatype Waterfall =
    | Completed(progress: Progress)          // the final callback runs with this response and error
    | Stalled(wire: Wire)                    // no continuation is ever called again
    | Crashed(wire: Wire, error: ErrorValue) // a hook calls a continuation that is not a function

  /** What calling the number `1` as `next` throws (V8 names the hook's own parameter). */
  const NextNotAFunction := ErrorValue("TypeError", "next is not a function")

  /** What `send`'s `process.nextTick(() => cb(e))` throws when `cb` is the number `1`. */
  const CbNotAFunction := ErrorValue("TypeError", "cb is not a function")

  /**
   * The waterfall as lib/sse-service-private-methods.js:126-134 runs it.
   * `async.waterfall` hands a task's extra results to the next task ahead of its
   * continuation, and the wrapper `_cb => mw[step].apply(null, [sseService,
   * ...args, _cb])` takes the first argument it receives as the continuation.
   * A hook that sends with `next` as the callback ends in `cb(null, 1)`
   * (lines 58-61), so the hook after it receives `1` as its `next`
   * (`nextIsFn` false). Calling that `next` throws. Sending with it makes
   * `maybeFn(1)` the no-op callback: the chain stalls, and a throwing
   * transform's early `cb(e)` throws instead.
   */
  function AfterWaterfallAsWritten(hooks: seq<AfterHook>, bag: Bag, mws: seq<Middleware>, w: Wire, nextIsFn: bool): Waterfall
    decreases |hooks|
  {
    if hooks == [] then Completed(Progress(w, None))
    else
      match hooks[0](bag)
      case Continue(e) =>
        if !nextIsFn then Crashed(w, NextNotAFunction)
        else if e.Some? then Completed(Progress(w, e))
        else AfterWaterfallAsWritten(hooks[1..], bag, mws, w, true)
      case SendThen(p) =>
        var t := TransformPayload(mws, p);
        var msg := Outgoing(mws, p);
        var w1 := w.AfterWrite(msg);
        if !nextIsFn then (if t.Threw? then Crashed(w1, CbNotAFunction) else Stalled(w1))
        else if t.Threw? then Completed(Progress(w1, Some(t.error)))
        else if ActionError(WriteChunk(msg), w).Some? then Completed(Progress(w1, ActionError(WriteChunk(msg), w)))
        else AfterWaterfallAsWritten(hooks[1..], bag, mws, w1, false)
  }

  /** No hook but possibly the last one sends: only then does the waterfall pass real continuations along. */
  predicate OnlyLastSends(hooks: seq<AfterHook>, bag: Bag) {
    forall i :: 0 <= i < |hooks| - 1 ==> hooks[i](bag).Continue?
  }

  /**
   * When no sending hook is followed by another, the waterfall as written ends
   * as the intended one does.
   */
  lemma {:induction false} AfterWaterfallAsWrittenAgrees(hooks: seq<AfterHook>, bag: Bag, mws: seq<Middleware>, w: Wire)
    requires OnlyLastSends(hooks, bag)
    ensures AfterWaterfallAsWritten(hooks, bag, mws, w, true) == Completed(AfterWaterfall(hooks, bag, mws, w))
    decreases |hooks|
  {
    if hooks != [] {
      var rest := hooks[1..];
      if |hooks| == 1 {
        assert rest == [];
      } else {
        assert hooks[0](bag).Continue?;
        assert OnlyLastSends(rest, bag) by {
          forall i | 0 <= i < |rest| - 1 ensures rest[i](bag).Continue? {
            assert rest[i] == hooks[i + 1];
          }
        }
        AfterWaterfallAsWrittenAgrees(rest, bag, mws, w);
      }
    }
  }

  /**
   * A hook that sends, followed by one that calls `next()`: the intended chain
   * completes, the one as written throws a TypeError after the first message.
   */
  lemma SendFollowedByHookCrashes(p: SendPayload, bag: Bag, mws: seq<Middleware>, w: Wire)
    requires w.Writable() && TransformPayload(mws, p).Returned?
    ensures var hooks := [(b: Bag) => SendThen(p), (b: Bag) => Continue(None)];
            && AfterWaterfall(hooks, bag, mws, w) == Progress(w.AfterWrite(Outgoing(mws, p)), None)
            && AfterWaterfallAsWritten(hooks, bag, mws, w, true) == Crashed(w.AfterWrite(Outgoing(mws, p)), NextNotAFunction)
  {
    var hooks := [(b: Bag) => SendThen(p), (b: Bag) => Continue(None)];
    var w1 := w.AfterWrite(Outgoing(mws, p));
    assert hooks[1..] == [(b: Bag) => Continue(None)];
    assert hooks[1..][1..] == [];
    assert AfterWaterfall(hooks[1..], bag, mws, w1) == Progress(w1, None);
  }

  /**
   * Two hooks that both send: the intended chain writes both messages and
   * completes; as written, the second message goes out and the chain stalls,
   * so neither `connection` nor an error is ever emitted.
   */
  lemma TwoSendsStall(p: SendPayload, q: SendPayload, bag: Bag, mws: seq<Middleware>, w: Wire)
    requires w.Writable() && TransformPayload(mws, p).Returned? && TransformPayload(mws, q).Returned?
    ensures var hooks := [(b: Bag) => SendThen(p), (b: Bag) => SendThen(q)];
            var w2 := w.AfterWrite(Outgoing(mws, p)).AfterWrite(Outgoing(mws, q));
            && AfterWaterfall(hooks, bag, mws, w) == Progress(w2, None)
            && AfterWaterfallAsWritten(hooks, bag, mws, w, true) == Stalled(w2)
  {
    var hooks := [(b: Bag) => SendThen(p), (b: Bag) => SendThen(q)];
    var w1 := w.AfterWrite(Outgoing(mws, p));
    assert w1.Writable();
    assert hooks[1..] == [(b: Bag) => SendThen(q)];
    assert hooks[1..][1..] == [];
    assert AfterWaterfall(hooks[1..], bag, mws, w1) == Progress(w1.AfterWrite(Outgoing(mws, q)), None);
  }

  // ---- What `register` does once a step has called back ------------------------

  /** The next move of `register` after a callback: emit an error, go on, or throw. */
  datatype Continuation = EmitError(error: ErrorValue) | Proceed | Crash(error: ErrorValue)

  /** The callback of the `beforeRegister` waterfall, going on with `_setupHTTPResponse`. */
  function BeforeDone(err: Option<ErrorValue>): (c: Continuation)
    ensures c.Proceed? <==> err.None?
    ensures c.EmitError? ==> c.error == Wrapped(err.value, BeforeRegisterFailure, None)
    ensures !c.Crash?
  {
    if err.Some? then EmitError(Wrapped(err.value, BeforeRegisterFailure, None)) else Proceed
  }

  /** What calling the `setupHTTPResponse` imported at lib/sse-service.js:5 throws: lib/utils/index.js does not export it. */
  const SetupNotAFunction := ErrorValue("TypeError", "setupHTTPResponse is not a function")

  /** The callback of lib/sse-service.js:94-97 as written. */
  function BeforeDoneAsWritten(err: Option<ErrorValue>): Continuation {
    if err.Some? then EmitError(Wrapped(err.value, BeforeRegisterFailure, None)) else Crash(SetupNotAFunction)
  }

  /**
   * As written, no registration ever reaches the setup of the response: where
   * the intended callback goes on, the one as written throws a TypeError.
   */
  lemma NoSetupAsWritten(err: Option<ErrorValue>)
    ensures !BeforeDoneAsWritten(err).Proceed?
    ensures err.None? ==> BeforeDone(err).Proceed? && BeforeDoneAsWritten(err) == Crash(SetupNotAFunction)
    ensures err.Some? ==> BeforeDoneAsWritten(err) == BeforeDone(err)
  {
  }

  /** `onHTTPResponseReady`: a setup error is wrapped and emitted; otherwise the connection is set up. */
  function ResponseReady(err: Option<ErrorValue>): (c: Continuation)
    ensures c.Proceed? <==> err.None?
    ensures c.EmitError? ==> c.error == Wrapped(err.value, RegisterFailure, None)
    ensures !c.Crash?
  {
    if err.Some? then EmitError(Wrapped(err.value, RegisterFailure, None)) else Proceed
  }

  /** What reading the unbound `e` of lib/sse-service.js:84 throws. */
  const UnboundE := ErrorValue("ReferenceError", "e is not defined")

  /** `onHTTPResponseReady` as written: its error branch reads `e` instead of `err`. */
  function ResponseReadyAsWritten(err: Option<ErrorValue>): Continuation {
    if err.Some? then Crash(UnboundE) else Proceed
  }

  /**
   * As written, a failed setup is never reported: the intended callback emits
   * the wrapped setup error, the one as written throws a ReferenceError.
   */
  lemma SetupErrorLostAsWritten(e: ErrorValue)
    ensures ResponseReady(Some(e)) == EmitError(Wrapped(e, RegisterFailure, None))
    ensures ResponseReadyAsWritten(Some(e)) == Crash(UnboundE)
    ensures ResponseReadyAsWritten(None) == ResponseReady(None)
  {
  }

  /** What a registration that reached the `afterRegister` waterfall emits: its error, or `connection`. */
  function Announce(after: Progress, id: SSEID): (e: Emitted)
    ensures e.Connection? <==> after.err.None?
    ensures e.Connection? ==> e.id == id
    ensures e.ErrorEvent? ==> e.error == Wrapped(after.err.value, AfterRegisterFailure, None)
  {
    if after.err.Some? then ErrorEvent(Wrapped(after.err.value, AfterRegisterFailure, None)) else Connection(id)
  }

  class SSEService {
    /** The uuid drawn at construction; a parameter here. */
    const secureId: string
    /** `internals.SSEID`, the ID class only this service can instantiate. */
    const idClass: SSEIDClass
    /** The keys of `activeSSEConnections` in insertion order. */
    var order: seq<SSEID>
    /** `activeSSEConnections`. */
    var conns: map<SSEID, Response>
    var middlewares: seq<Middleware>
    var blockIncomingConnections: bool
    var heartbeat: Timer
    var log: seq<Emitted>

    /** The responses of the active connections. */
    function Responses(): set<Response>
      reads this`conns
    {
      set id | id in conns :: conns[id]
    }

    /**
     * The map and its insertion order agree, every key is an ID of this service
     * for its own response, and each response links back to its ID.
     */
    ghost predicate Valid()
      reads this`order, this`conns, Responses()`sseId
    {
      idClass.secret == secureId
      && Distinct(order)
      && (forall id :: id in conns ==> id in order)
      && (forall id :: id in order ==> id in conns)
      && (forall id :: id in conns ==> id.cls == idClass && id.res == conns[id] && conns[id].sseId == id)
    }

    /** `x instanceof internal(this).SSEID`. */
    predicate IsOwnId(x: object?) {
      x != null && x is SSEID && (x as SSEID).cls == idClass
    }

    constructor (secureId: string)
      ensures this.secureId == secureId && idClass.secret == secureId
      ensures order == [] && conns == map[] && middlewares == []
      ensures !blockIncomingConnections && heartbeat == Running(HeartbeatInterval) && log == []
      ensures Valid()
    {
      this.secureId := secureId;
      idClass := new SSEIDClass(secureId);
      order := [];
      conns := map[];
      middlewares := [];
      blockIncomingConnections := false;
      heartbeat := Running(HeartbeatInterval);
      log := [];
    }

    /** The connections a target selects, in map order. */
    function Selected(t: Resolved<SSEID>): seq<SSEID>
      reads this
      reads set x | x in order :: x.res
      reads set x | x in order :: x.res.locals
    {
      Filter(order, t)
    }

    /** `_getSSEIdFromResponse`: the back-link, if it is an ID of this service. */
    function GetSSEIdFromResponse(res: Response): (r: SSEID?)
      reads res
      ensures r != null <==> IsOwnId(res.sseId)
      ensures r != null ==> r == res.sseId
    {
      if IsOwnId(res.sseId) then res.sseId as SSEID else null
    }

    /** Under the invariant, an active connection's response leads back to its ID. */
    lemma BackLink(id: SSEID)
      requires Valid() && id in conns
      ensures GetSSEIdFromResponse(conns[id]) == id
      ensures forall other :: other in conns && other != id ==> conns[other] != conns[id]
    {
    }

    /** `activeSSEConnections.delete(id)`. */
    method Delete(id: SSEID)
      requires Valid()
      modifies this
      ensures conns == old(conns) - {id} && order == Without(old(order), {id})
      ensures middlewares == old(middlewares) && blockIncomingConnections == old(blockIncomingConnections)
      ensures heartbeat == old(heartbeat) && log == old(log)
      ensures Valid()
    {
      WithoutDistinct(order, {id});
      WithoutMembers(order, {id});
      conns := conns - {id};
      order := Without(order, {id});
    }

    /**
     * The `finish` callback of `_unregisterFn` for the response of `id`: it
     * deletes the ID the response links back to, which is `id` itself.
     */
    method Finish(id: SSEID)
      requires Valid() && id in conns
      modifies this
      ensures conns == old(conns) - {id} && order == Without(old(order), {id})
      ensures middlewares == old(middlewares) && blockIncomingConnections == old(blockIncomingConnections)
      ensures heartbeat == old(heartbeat) && log == old(log)
      ensures Valid()
    {
      BackLink(id);
      var sseId := GetSSEIdFromResponse(id.res);
      if sseId != null {
        Delete(sseId);
      }
    }

    /** The `finish` callbacks of the unregistered connections, once every response has ended. */
    method Forget(sel: seq<SSEID>)
      requires Valid() && Distinct(sel) && forall x :: x in sel ==> x in conns
      modifies this
      ensures conns == old(conns) - Elems(sel) && order == Without(old(order), Elems(sel))
      ensures middlewares == old(middlewares) && blockIncomingConnections == old(blockIncomingConnections)
      ensures heartbeat == old(heartbeat) && log == old(log)
      ensures Valid()
      decreases |sel|
    {
      if sel == [] {
        WithoutNone(order);
        assert Elems(sel) == {};
      } else {
        var id, rest := sel[0], sel[1..];
        assert Elems(sel) == {id} + Elems(rest) by {
          assert sel == [id] + rest;
        }
        assert Distinct(rest) && id !in rest by {
          forall i, j | 0 <= i < j < |rest| ensures rest[i] != rest[j] {
            assert rest[i] == sel[i + 1] && rest[j] == sel[j + 1];
          }
          forall k | 0 <= k < |rest| ensures rest[k] != id {
            assert rest[k] == sel[k + 1];
          }
        }
        ghost var order0, conns0 := order, conns;
        Finish(id);
        Forget(rest);
        WithoutTwice(order0, {id}, Elems(rest));
        MapMinusTwice(conns0, {id}, Elems(rest));
      }
    }

    /**
     * The responses after an action ran on the connections `sel`, out of those
     * listed in `before`: the selected ones carry its effect, the others are untouched.
     */
    twostate predicate Touched(a: Action, sel: seq<SSEID>, before: seq<SSEID>)
      reads set x | x in before :: x.res
    {
      (forall i :: 0 <= i < |sel| && sel[i] in before ==> ActedOn(a, sel[i].res))
      && (forall x :: x in before && x !in sel ==> unchanged(x.res))
    }

    /**
     * The whole state after an action ran on the connections `sel`: the
     * responses are `Touched`, and only unregistration shrinks the map.
     */
    twostate predicate FannedOut(a: Action, sel: seq<SSEID>, before: seq<SSEID>)
      reads this, set x | x in before :: x.res
    {
      Touched(a, sel, before)
      && (a.WriteChunk? ==> conns == old(conns) && order == old(order))
      && (a.EndAndRemove? ==> conns == old(conns) - Elems(sel) && order == Without(old(order), Elems(sel)))
      && middlewares == old(middlewares) && blockIncomingConnections == old(blockIncomingConnections)
      && heartbeat == old(heartbeat)
    }

    /** The first half of the fan-out: the connections whose `res.locals` the target accepts, in map order. */
    method Collect(t: Resolved<SSEID>) returns (sel: seq<SSEID>)
      requires Valid() && !t.OneId?
      ensures sel == Selected(t)
    {
      sel := [];
      var i := 0;
      while i < |order|
        invariant 0 <= i <= |order|
        invariant sel == Filter(order[..i], t)
      {
        var res := conns[order[i]];
        assert order[..i + 1][..i] == order[..i];
        if t.Everyone? || t.pred.call(BagOf(res)) {
          sel := sel + [order[i]];
        }
        i := i + 1;
      }
      assert order[..i] == order;
    }

    /**
     * Distinct active IDs have distinct responses, and an active connection
     * outside the selection keeps a response no selected ID has.
     */
    lemma DistinctResponses(sel: seq<SSEID>)
      requires Valid() && Distinct(sel) && forall x :: x in sel ==> x in conns
      ensures Distinct(ResOf(sel))
      ensures forall x :: x in sel ==> x.res in Responses()
      ensures forall x :: x in conns && x !in sel ==> x.res !in ResOf(sel)
    {
      var rs := ResOf(sel);
      forall x, i | x in conns && x !in sel && 0 <= i < |rs|
        ensures rs[i] != x.res
      {
        assert sel[i] in conns && sel[i] != x;
      }
    }

    /** `fn` on the response of an active ID: its error, its effect, and for unregistration the `finish` callback. */
    method ApplyToActive(a: Action, id: SSEID) returns (e: Option<ErrorValue>)
      requires Valid() && id in conns
      modifies this, Responses()
      ensures e == ActionError(a, old(id.res.wire))
      ensures Touched(a, [id], old(order))
      ensures a.WriteChunk? ==> conns == old(conns) && order == old(order)
      ensures a.EndAndRemove? ==> conns == old(conns) - {id} && order == Without(old(order), {id})
      ensures middlewares == old(middlewares) && blockIncomingConnections == old(blockIncomingConnections)
      ensures heartbeat == old(heartbeat) && log == old(log)
      ensures Valid()
    {
      BackLink(id);
      DistinctResponses([id]);
      ghost var before := order;
      e := Perform(a, id.res);
      assert Touched(a, [id], before);
      if a.EndAndRemove? {
        Finish(id);
      }
    }

    /** `_applyForTarget` with an ID of this service: `cb(null, 0)` if it is not active, else `fn` on its response. */
    method ApplyToOne(a: Action, id: SSEID) returns (o: Outcome)
      requires Valid()
      modifies this, Responses()
      ensures o == Expected(a, old(WiresOf(ResOf(Selected(OneId(id))))))
      ensures FannedOut(a, old(Selected(OneId(id))), old(order))
      ensures log == old(log)
      ensures Valid()
    {
      FilterOne(order, id);
      ghost var chosen := Selected(OneId(id));
      ghost var ws := WiresOf(ResOf(chosen));
      ghost var before := order;
      if id !in conns {
        assert chosen == [] && ws == [];
        WithoutNone(order);
        assert Elems(chosen) == {};
        o := Targeted(0);
      } else {
        assert chosen == [id] && ws == [id.res.wire] && ws[1..] == [];
        var e := ApplyToActive(a, id);
        assert Elems(chosen) == {id};
        o := if e.Some? then Failed(e.value) else Targeted(1);
        assert FirstError(a, ws) == e;
      }
      assert o == Expected(a, ws);
      assert FannedOut(a, chosen, before);
    }

    /** The `async.parallel` step: the action runs on the response of every ID in `sel`, in order. */
    method Broadcast(a: Action, sel: seq<SSEID>) returns (first: Option<ErrorValue>)
      requires Valid() && Distinct(sel) && forall x :: x in sel ==> x in conns
      modifies Responses()
      ensures first == FirstError(a, old(WiresOf(ResOf(sel))))
      ensures Touched(a, sel, order)
      ensures Valid()
    {
      DistinctResponses(sel);
      var rs := ResOf(sel);
      first := PerformAll(a, rs);
      assert forall i :: 0 <= i < |sel| ==> ActedOn(a, sel[i].res) by {
        assert forall i :: 0 <= i < |sel| ==> rs[i] == sel[i].res;
      }
    }

    /** Collect the connections a predicate or `null` selects, then run the action on each. */
    method BroadcastSelected(a: Action, t: Resolved<SSEID>) returns (sel: seq<SSEID>, first: Option<ErrorValue>)
      requires Valid() && !t.OneId?
      modifies Responses()
      ensures sel == old(Selected(t)) && Distinct(sel) && forall x :: x in sel ==> x in conns
      ensures first == FirstError(a, old(WiresOf(ResOf(Selected(t)))))
      ensures Touched(a, sel, order)
      ensures Valid()
    {
      sel := Collect(t);
      FilterDistinct(order, t);
      FilterMembers(order, t);
      first := Broadcast(a, sel);
    }

    /** `_applyForTarget(writeFn, …)` with a predicate or `null`. */
    method WriteToSelection(chunk: string, t: Resolved<SSEID>) returns (o: Outcome)
      requires Valid() && !t.OneId?
      modifies Responses()
      ensures o == Expected(WriteChunk(chunk), old(WiresOf(ResOf(Selected(t)))))
      ensures FannedOut(WriteChunk(chunk), old(Selected(t)), old(order))
      ensures Valid()
    {
      var sel, first := BroadcastSelected(WriteChunk(chunk), t);
      o := if first.Some? then Failed(first.value) else Targeted(|sel|);
    }

    /** `_applyForTarget(_unregisterFn, …)` with a predicate or `null`: end the selected responses, then forget them. */
    method EndSelection(t: Resolved<SSEID>) returns (o: Outcome)
      requires Valid() && !t.OneId?
      modifies this, Responses()
      ensures o == Expected(EndAndRemove, old(WiresOf(ResOf(Selected(t)))))
      ensures FannedOut(EndAndRemove, old(Selected(t)), old(order))
      ensures log == old(log)
      ensures Valid()
    {
      var sel, first := BroadcastSelected(EndAndRemove, t);
      Forget(sel);
      o := if first.Some? then Failed(first.value) else Targeted(|sel|);
    }

    /** `_applyForTarget` after normalisation. */
    method ApplyResolved(a: Action, t: Resolved<SSEID>) returns (o: Outcome)
      requires Valid()
      modifies this, Responses()
      ensures o == Expected(a, old(WiresOf(ResOf(Selected(t)))))
      ensures FannedOut(a, old(Selected(t)), old(order))
      ensures log == old(log)
      ensures Valid()
    {
      if t.OneId? {
        o := ApplyToOne(a, t.id);
      } else if a.WriteChunk? {
        o := WriteToSelection(a.chunk, t);
      } else {
        o := EndSelection(t);
      }
    }

    /** The target `_applyForTarget` is left with once `cb` is `maybeFn(cb || target)`. */
    function Resolve(target: Arg<object>, cb: Arg<object>): (r: Resolved<SSEID>)
      ensures r.OneId? <==> target.IdArg? && IsOwnId(target.id)
      ensures r.OneId? ==> r.id == target.id
      ensures r.Matching? <==> target.Func? && !Same(target.f, Callback(target, cb))
      ensures r.Matching? ==> r.pred == target.f
    {
      match Normalise(target, cb, (x: object) => IsOwnId(x))
      case OneId(x) => OneId(x as SSEID)
      case Matching(f) => Matching(f)
      case Everyone => Everyone
    }

    /**
     * `_applyForTarget(fn, target, cb)`: the action runs on every connection the
     * target selects, then the callback receives the first error or the number of
     * connections targeted. `queued` are the calls already waiting on the tick
     * queue, which run before the fan-out's callback.
     */
    method ApplyForTarget(a: Action, target: Arg<object>, cb: Arg<object>, queued: seq<Emitted>)
      requires Valid()
      modifies this, Responses()
      ensures FannedOut(a, old(Selected(Resolve(target, cb))), old(order))
      ensures log == old(log) + queued
                     + Report(Callback(target, cb), Expected(a, old(WiresOf(ResOf(Selected(Resolve(target, cb)))))))
      ensures Valid()
    {
      var o := ApplyResolved(a, Resolve(target, cb));
      Record(queued + Report(Callback(target, cb), o));
    }

    /** `unregister(target, cb)`: every selected connection is ended and leaves the map. */
    method Unregister(target: Arg<object>, cb: Arg<object>)
      requires Valid()
      modifies this, Responses()
      ensures FannedOut(EndAndRemove, old(Selected(Resolve(target, cb))), old(order))
      ensures forall x :: x in old(Selected(Resolve(target, cb))) ==> x !in conns
      ensures target.IdArg? && IsOwnId(target.id) ==> target.id !in conns
      ensures log == old(log) + Report(Callback(target, cb),
                                       Expected(EndAndRemove, old(WiresOf(ResOf(Selected(Resolve(target, cb)))))))
      ensures Valid()
    {
      ghost var sel := Selected(Resolve(target, cb));
      if target.IdArg? && IsOwnId(target.id) {
        FilterOne(order, target.id as SSEID);
      }
      ApplyForTarget(EndAndRemove, target, cb, []);
    }

    /** `unregister(null, cb)`: every connection is ended and the map is emptied. */
    method UnregisterAll(cb: Arg<object>)
      requires Valid()
      modifies this, Responses()
      ensures conns == map[] && order == []
      ensures forall i :: 0 <= i < |old(order)| ==> old(order)[i].res.wire == old(order[i].res.wire).AfterEnd(None)
      ensures middlewares == old(middlewares) && blockIncomingConnections == old(blockIncomingConnections)
      ensures heartbeat == old(heartbeat)
      ensures log == old(log) + Report(Callback(Other(false), cb), Expected(EndAndRemove, old(WiresOf(ResOf(order)))))
      ensures Valid()
    {
      assert Resolve(Other(false), cb) == Everyone;
      FilterEveryone(order);
      ghost var all, conns0 := order, conns;
      Unregister(Other(false), cb);
      WithoutAll(all, Elems(all));
      MinusAll(conns0, Elems(all));
    }

    /**
     * `close(cb)`: refuse new connections, stop the heartbeat and unregister
     * every connection.
     */
    method Close(cb: Arg<object>)
      requires Valid()
      modifies this, Responses()
      ensures blockIncomingConnections && heartbeat == Cleared
      ensures conns == map[] && order == []
      ensures forall i :: 0 <= i < |old(order)| ==> old(order)[i].res.wire == old(order[i].res.wire).AfterEnd(None)
      ensures middlewares == old(middlewares)
      ensures log == old(log) + Report(Callback(Other(false), cb), Expected(EndAndRemove, old(WiresOf(ResOf(order)))))
      ensures Valid()
    {
      blockIncomingConnections := true;
      heartbeat := Cleared;
      UnregisterAll(cb);
    }

    /**
     * `send(payload, target, cb)`: the (transformed) payload's message is
     * written to every connection the target selects.
     */
    method Send(payload: SendPayload, target: Arg<object>, cb: Arg<object>)
      requires Valid()
      modifies this, Responses()
      ensures FannedOut(WriteChunk(Outgoing(old(middlewares), payload)), old(Selected(Resolve(target, cb))), old(order))
      ensures log == old(log) + TransformFailure(old(middlewares), payload, cb)
                     + Report(Callback(target, cb), Expected(WriteChunk(Outgoing(old(middlewares), payload)),
                                                             old(WiresOf(ResOf(Selected(Resolve(target, cb)))))))
      ensures Valid()
    {
      var p := payload;
      var early := [];
      var t := TransformPayload(middlewares, payload);
      if t.Returned? {
        p := t.value;
      } else if cb.Func? {
        early := [Called(cb.f.id, Some(t.error), None)];
      }
      var msg := Message(p);
      ApplyForTarget(WriteChunk(msg), target, cb, early);
    }

    /**
     * `send` as written: after the transforms, the call of `assert.isObjectOrString`
     * throws, so no connection is written to and the callback only hears of a
     * throwing transform. The heartbeat's `send` throws the same way.
     */
    method SendAsWritten(payload: SendPayload, target: Arg<object>, cb: Arg<object>) returns (thrown: ErrorValue)
      requires Valid()
      modifies this
      ensures thrown == NoIsObjectOrString
      ensures log == old(log) + TransformFailure(old(middlewares), payload, cb)
      ensures conns == old(conns) && order == old(order) && middlewares == old(middlewares)
      ensures blockIncomingConnections == old(blockIncomingConnections) && heartbeat == old(heartbeat)
      ensures Valid()
    {
      var t := TransformPayload(middlewares, payload);
      if t.Threw? && cb.Func? {
        Record([Called(cb.f.id, Some(t.error), None)]);
      }
      thrown := NoIsObjectOrString;
    }

    /** `resetEventId(target, cb)`: an `id` field with an empty value goes to every selected connection. */
    method ResetEventId(target: Arg<object>, cb: Arg<object>)
      requires Valid()
      modifies this, Responses()
      ensures FannedOut(WriteChunk(ResetRecord), old(Selected(Resolve(target, cb))), old(order))
      ensures log == old(log) + Report(Callback(target, cb),
                                       Expected(WriteChunk(ResetRecord), old(WiresOf(ResOf(Selected(Resolve(target, cb)))))))
      ensures Valid()
    {
      ApplyForTarget(WriteChunk(ResetRecord), target, cb, []);
    }

    /** One tick of the heartbeat interval: `send({comment: ''})` to every connection, without a callback. */
    method HeartbeatTick()
      requires Valid() && heartbeat.Running?
      modifies this, Responses()
      ensures FannedOut(WriteChunk(Outgoing(old(middlewares), Structured(LibHeartbeat))), old(order), old(order))
      ensures log == old(log)
      ensures Valid()
    {
      FilterEveryone(order);
      ghost var ord := order;
      assert Resolve(Other(false), Other(false)) == Everyone && Selected(Everyone) == ord;
      assert Callback<object>(Other(false), Other(false)).id == DefaultCallback;
      assert TransformFailure(middlewares, Structured(LibHeartbeat), Other(false)) == [];
      Send(Structured(LibHeartbeat), Other(false), Other(false));
    }

    /** `isConnectionActive(x)`: an assertion error unless `x` is an ID of this service, else whether it is in the map. */
    function IsConnectionActive(x: object?): (r: Try<bool>)
      reads this
      ensures r.Threw? <==> !IsOwnId(x)
      ensures r.Threw? ==> r.error == NotAnIdError
      ensures r.Returned? ==> (r.value <==> x in conns)
    {
      if !IsOwnId(x) then Threw(NotAnIdError) else Returned(x as SSEID in conns)
    }

    /** `numActiveConnections`: the size of the map. */
    function NumActiveConnections(): (n: nat)
      reads this
      ensures n == |conns.Keys|
    {
      |conns|
    }

    /** The count is the number of IDs in insertion order, one per active connection. */
    lemma NumActiveIsOrderLength()
      requires Valid()
      ensures NumActiveConnections() == |order|
    {
      DistinctCard(order);
      assert conns.Keys == set x | x in order;
    }

    /** `use(...mws)`: the middlewares are appended in order; the service is returned for chaining. */
    method Use(mws: seq<Middleware>) returns (self: SSEService)
      requires Valid()
      modifies this
      ensures self == this
      ensures middlewares == old(middlewares) + mws
      ensures order == old(order) && conns == old(conns) && log == old(log)
      ensures blockIncomingConnections == old(blockIncomingConnections) && heartbeat == old(heartbeat)
      ensures Valid()
    {
      middlewares := middlewares + mws;
      self := this;
    }

    /** The `close` listener of a registered response: unregister it, then emit `clientClose`. */
    method OnResponseClose(id: SSEID)
      requires Valid() && id.cls == idClass
      modifies this, Responses()
      ensures id !in conns
      ensures FannedOut(EndAndRemove, old(Selected(OneId(id))), old(order))
      ensures log == old(log) + [ClientClose(id)]
      ensures Valid()
    {
      FilterOne(order, id);
      ghost var sel, ord := Selected(OneId(id)), order;
      var o := ApplyToOne(EndAndRemove, id);
      assert FannedOut(EndAndRemove, sel, ord) && id !in conns;
      Record([ClientClose(id)]);
    }

    /** The `finish` listener of a registered response: unregister it, with no callback. */
    method OnResponseFinish(id: SSEID)
      requires Valid() && id.cls == idClass
      modifies this, Responses()
      ensures id !in conns
      ensures FannedOut(EndAndRemove, old(Selected(OneId(id))), old(order))
      ensures log == old(log)
      ensures Valid()
    {
      Unregister(IdArg(id), Other(false));
    }

    // ---- Registration ------------------------------------------------------

    /**
     * `_verifyRequest`: throws if the headers are out; answers 400 unless the
     * client accepts an event stream; ends the response while connections are
     * refused; otherwise admits the response unless it is already registered.
     */
    method VerifyRequest(req: Request, res: Response) returns (r: Try<bool>)
      modifies res
      ensures r.Threw? <==> old(res.wire.headersSent)
      ensures r.Threw? ==> r.error == ErrorValue("Error", HeadersSentMessage) && res.wire == old(res.wire)
      ensures r.Returned? && !AcceptsEventStream(req.headers) ==>
                !r.value && res.wire == old(res.wire).AfterWriteHead(400, map[]).AfterEnd(Some(AcceptRejection()))
      ensures r.Returned? && AcceptsEventStream(req.headers) && blockIncomingConnections ==>
                !r.value && res.wire == old(res.wire).AfterEnd(None)
      ensures r.Returned? && AcceptsEventStream(req.headers) && !blockIncomingConnections ==>
                (r.value <==> !IsOwnId(res.sseId)) && res.wire == old(res.wire)
      ensures res.locals == old(res.locals) && res.sseId == old(res.sseId)
    {
      if res.wire.headersSent {
        return Threw(ErrorValue("Error", HeadersSentMessage));
      }
      if !AcceptsEventStream(req.headers) {
        var thrown := res.WriteHead(400, map[]);
        var err := res.End(Some(AcceptRejection()));
        return Returned(false);
      }
      if blockIncomingConnections {
        var err := res.End(None);
        return Returned(false);
      }
      r := Returned(GetSSEIdFromResponse(res) == null);
    }

    /** The `beforeRegister` waterfall over the request, in registration order. */
    method RunBeforeRegister(req: Request) returns (err: Option<ErrorValue>)
      modifies req
      ensures BeforeOutcome(req.headers, err) == BeforeWaterfall(BeforeChain(middlewares), old(req.headers), req.query)
    {
      var hooks := BeforeChain(middlewares);
      ghost var whole := BeforeWaterfall(hooks, req.headers, req.query);
      err := None;
      var i := 0;
      while i < |hooks| && err.None?
        invariant 0 <= i <= |hooks|
        invariant err.Some? ==> whole == BeforeOutcome(req.headers, err)
        invariant err.None? ==> whole == BeforeWaterfall(hooks[i..], req.headers, req.query)
      {
        assert hooks[i..][1..] == hooks[i + 1..];
        var o := hooks[i](req.headers, req.query);
        req.headers := o.headers;
        err := o.err;
        i := i + 1;
      }
      assert err.None? ==> hooks[i..] == [];
    }

    /** `_setupHTTPResponse(res, cb)`: the error its callback receives, and what it throws. */
    method SetupHTTPResponse(res: Response) returns (err: Option<ErrorValue>, escaped: Option<ErrorValue>)
      modifies res
      ensures Setup(res.wire, err, escaped) == SetupResponse(middlewares, old(res.wire))
      ensures res.locals == old(res.locals) && res.sseId == old(res.sseId)
    {
      var hs := TransformHeaders(middlewares, SseHttpResponseHeaders);
      var thrown: Option<ErrorValue> := None;
      escaped := None;
      if hs.Returned? {
        thrown := res.WriteHead(200, hs.value);
      }
      if hs.Threw? || thrown.Some? {
        var e := if hs.Threw? then hs.error else thrown.value;
        err := Some(Wrapped(e, "Could not send status code and headers", Some(SetupErrorName)));
        escaped := res.WriteHead(500, map[]);
        if escaped.Some? {
          return;
        }
        var ended := res.End(None);
        return;
      }
      var w := res.Write(FlushComment);
      err := if w == null then None else Some(Wrapped(w.Value(), "Could not send initial heartbeat payload", Some(SetupErrorName)));
    }

    /** An inactive response, one that does not link back to an ID of this service, is no active connection's. */
    lemma UnlinkedIsInactive(res: Response)
      requires Valid() && !IsOwnId(res.sseId)
      ensures res !in Responses()
      ensures forall x :: x in conns ==> x.res != res
    {
    }

    /**
     * `_setupSSE`: gives the response a `locals` object if it has none, mints an
     * ID for it, and records the connection in the map and on the response.
     * `!res.hasOwnProperty('locals')` is read as `res.locals == null`, so an own
     * `locals` property holding `null` is not told apart from a missing one.
     */
    method SetupSSE(req: Request, res: Response) returns (id: SSEID)
      requires Valid() && !IsOwnId(res.sseId)
      modifies this, res
      ensures fresh(id) && id.cls == idClass && id.res == res && id.lastEventId == LastEventIdHeader(req.headers)
      ensures conns == old(conns)[id := res] && order == old(order) + [id] && res.sseId == id
      ensures old(res.locals) != null ==> res.locals == old(res.locals)
      ensures old(res.locals) == null ==> fresh(res.locals) && res.locals.bag == map[] && res.locals.sse == None
      ensures res.wire == old(res.wire)
      ensures middlewares == old(middlewares) && blockIncomingConnections == old(blockIncomingConnections)
      ensures heartbeat == old(heartbeat) && log == old(log)
      ensures Valid()
    {
      UnlinkedIsInactive(res);
      if res.locals == null {
        res.locals := new Locals();
      }
      id := new SSEID(idClass, secureId, req, res);
      conns := conns[id := res];
      order := order + [id];
      res.sseId := id;
    }

    /** One `afterRegister` hook on the new connection's response: the error it passes to `next`. */
    method RunAfterStep(step: AfterStep, res: Response) returns (err: Option<ErrorValue>)
      modifies res
      ensures Progress(res.wire, err) == AfterStepOn(step, middlewares, old(res.wire))
      ensures res.locals == old(res.locals) && res.sseId == old(res.sseId)
    {
      match step {
        case Continue(e) =>
          err := e;
        case SendThen(p) =>
          var t := TransformPayload(middlewares, p);
          var e := Perform(WriteChunk(Outgoing(middlewares, p)), res);
          err := if t.Threw? then Some(t.error) else e;
      }
    }

    /** The `afterRegister` waterfall for a new connection, in reverse registration order. */
    method RunAfterRegister(id: SSEID) returns (err: Option<ErrorValue>)
      requires Valid() && id in conns
      modifies id.res
      ensures Progress(id.res.wire, err) == AfterWaterfall(AfterChain(middlewares), BagOf(id.res), middlewares, old(id.res.wire))
      ensures id.res.locals == old(id.res.locals) && id.res.sseId == old(id.res.sseId)
      ensures Valid()
    {
      var res := id.res;
      var hooks := AfterChain(middlewares);
      var bag := BagOf(res);
      ghost var whole := AfterWaterfall(hooks, bag, middlewares, res.wire);
      err := None;
      var i := 0;
      while i < |hooks| && err.None?
        invariant 0 <= i <= |hooks|
        invariant res.locals == old(res.locals) && res.sseId == old(res.sseId) && bag == BagOf(res)
        invariant err.Some? ==> whole == Progress(res.wire, err)
        invariant err.None? ==> whole == AfterWaterfall(hooks[i..], bag, middlewares, res.wire)
      {
        assert hooks[i..][1..] == hooks[i + 1..];
        err := RunAfterStep(hooks[i](bag), res);
        i := i + 1;
      }
      assert err.None? ==> hooks[i..] == [];
    }

    /**
     * What registering an admitted response leads to: the `beforeRegister`
     * waterfall rewrites the request headers; its error, or a failed setup of
     * the response, is emitted; otherwise the response is a new connection, the
     * `afterRegister` waterfall runs on it, and its error or the `connection`
     * event is emitted.
     */
    twostate predicate Registered(req: Request, res: Response)
      reads this, req, res, res.locals
    {
      var before := BeforeWaterfall(BeforeChain(old(middlewares)), old(req.headers), req.query);
      var setup := SetupResponse(old(middlewares), old(res.wire));
      req.headers == before.headers
      && middlewares == old(middlewares) && blockIncomingConnections == old(blockIncomingConnections)
      && heartbeat == old(heartbeat)
      && (before.err.Some? ==>
            res.wire == old(res.wire) && conns == old(conns) && order == old(order)
            && log == old(log) + [ErrorEvent(Wrapped(before.err.value, BeforeRegisterFailure, None))])
      && (before.err.None? && setup.err.Some? ==>
            res.wire == setup.wire && conns == old(conns) && order == old(order)
            && log == old(log) + [ErrorEvent(Wrapped(setup.err.value, RegisterFailure, None))])
      && (before.err.None? && setup.err.None? ==>
            IsOwnId(res.sseId)
            && var id := res.sseId as SSEID;
            var after := AfterWaterfall(AfterChain(old(middlewares)), BagOf(res), old(middlewares), setup.wire);
            id.res == res && id.lastEventId == LastEventIdHeader(before.headers)
            && conns == old(conns)[id := res] && order == old(order) + [id]
            && res.wire == after.wire
            && log == old(log) + [Announce(after, id)])
    }

    /** Events emitted and callbacks called, in order: they go to the end of the log and nothing else changes. */
    method Record(es: seq<Emitted>)
      requires Valid()
      modifies this`log
      ensures log == old(log) + es
      ensures Valid()
    {
      log := log + es;
    }

    /**
     * `register` once the response is set up: the connection is recorded, the
     * `afterRegister` waterfall runs on it, and its error or `connection` is emitted.
     */
    method Establish(req: Request, res: Response) returns (id: SSEID)
      requires Valid() && !IsOwnId(res.sseId)
      modifies this, res
      ensures fresh(id) && id.cls == idClass && res.sseId == id && id.res == res
      ensures id.lastEventId == LastEventIdHeader(req.headers)
      ensures conns == old(conns)[id := res] && order == old(order) + [id]
      ensures res.wire == AfterWaterfall(AfterChain(middlewares), BagOf(res), middlewares, old(res.wire)).wire
      ensures log == old(log) + [Announce(AfterWaterfall(AfterChain(middlewares), BagOf(res), middlewares, old(res.wire)), id)]
      ensures middlewares == old(middlewares) && blockIncomingConnections == old(blockIncomingConnections)
      ensures heartbeat == old(heartbeat)
      ensures Valid()
    {
      id := SetupSSE(req, res);
      ghost var start, bag := res.wire, BagOf(res);
      var err := RunAfterRegister(id);
      assert Progress(res.wire, err) == AfterWaterfall(AfterChain(middlewares), bag, middlewares, start);
      assert BagOf(res) == bag;
      Record([Announce(Progress(res.wire, err), id)]);
    }

    /**
     * `register` after the `beforeRegister` waterfall succeeded: set up the
     * response, then the connection; what the setup throws is passed on.
     */
    method Connect(req: Request, res: Response) returns (escaped: Option<ErrorValue>)
      requires Valid() && !IsOwnId(res.sseId)
      modifies this, res
      ensures escaped == SetupResponse(middlewares, old(res.wire)).escaped
      ensures SetupResponse(middlewares, old(res.wire)).err.Some? ==>
                res.wire == SetupResponse(middlewares, old(res.wire)).wire && conns == old(conns) && order == old(order)
                && log == old(log) + [ErrorEvent(Wrapped(SetupResponse(middlewares, old(res.wire)).err.value, RegisterFailure, None))]
                && res.sseId == old(res.sseId)
      ensures SetupResponse(middlewares, old(res.wire)).err.None? ==>
                IsOwnId(res.sseId) && fresh(res.sseId)
                && var id := res.sseId as SSEID;
                var after := AfterWaterfall(AfterChain(middlewares), BagOf(res), middlewares,
                                            SetupResponse(middlewares, old(res.wire)).wire);
                id.res == res && id.lastEventId == LastEventIdHeader(req.headers)
                && conns == old(conns)[id := res] && order == old(order) + [id]
                && res.wire == after.wire
                && log == old(log) + [Announce(after, id)]
      ensures middlewares == old(middlewares) && blockIncomingConnections == old(blockIncomingConnections)
      ensures heartbeat == old(heartbeat)
      ensures Valid()
    {
      var err;
      err, escaped := SetupHTTPResponse(res);
      var next := ResponseReady(err);
      if next.EmitError? {
        Record([ErrorEvent(next.error)]);
        return;
      }
      var id := Establish(req, res);
    }

    /**
     * `register` once `_verifyRequest` has admitted the response; a response
     * whose headers are out makes the setup throw through the `beforeRegister`
     * callback.
     */
    method Admit(req: Request, res: Response) returns (escaped: Option<ErrorValue>)
      requires Valid() && !IsOwnId(res.sseId)
      modifies this, req, res
      ensures Registered(req, res)
      ensures escaped.Some? <==>
                BeforeWaterfall(BeforeChain(old(middlewares)), old(req.headers), req.query).err.None?
                && old(res.wire.headersSent)
      ensures escaped.Some? ==> escaped.value == HeadersSentError
      ensures res.sseId != old(res.sseId) ==> fresh(res.sseId)
      ensures Valid()
    {
      var err := RunBeforeRegister(req);
      var next := BeforeDone(err);
      if next.EmitError? {
        Record([ErrorEvent(next.error)]);
        return None;
      }
      escaped := Connect(req, res);
    }

    /**
     * `register(req, res)`: throws if the headers are already sent; a response
     * `_verifyRequest` turns away gets its answer and nothing else changes.
     */
    method Register(req: Request, res: Response) returns (thrown: Option<ErrorValue>)
      requires Valid()
      modifies this, req, res
      ensures thrown.Some? <==> old(res.wire.headersSent)
      ensures thrown.Some? ==> thrown.value == ErrorValue("Error", HeadersSentMessage) && res.wire == old(res.wire)
      ensures thrown.None? && !AcceptsEventStream(old(req.headers)) ==>
                res.wire == old(res.wire).AfterWriteHead(400, map[]).AfterEnd(Some(AcceptRejection()))
      ensures thrown.None? && AcceptsEventStream(old(req.headers)) && blockIncomingConnections ==>
                res.wire == old(res.wire).AfterEnd(None)
      ensures (thrown.Some? || !AcceptsEventStream(old(req.headers)) || blockIncomingConnections
               || IsOwnId(old(res.sseId))) ==>
                conns == old(conns) && order == old(order) && log == old(log) && req.headers == old(req.headers)
      ensures (thrown.None? && AcceptsEventStream(old(req.headers)) && !blockIncomingConnections
               && !IsOwnId(old(res.sseId))) ==> Registered(req, res)
      ensures blockIncomingConnections == old(blockIncomingConnections)
      ensures Valid()
    {
      var admitted := VerifyRequest(req, res);
      if admitted.Threw? {
        return Some(admitted.error);
      }
      thrown := None;
      if admitted.value {
        thrown := Admit(req, res);
      }
    }
  }

  /**
   * Each service owns a private ID class holding its secret, so an ID minted by one
   * service is foreign to a service with another secret: `isConnectionActive`
   * refuses it and, passed as a target, it selects no single connection.
   */
  lemma ForeignIdRejected(a: SSEService, b: SSEService, id: SSEID, cb: Arg<object>)
    requires a.idClass.secret == a.secureId && b.idClass.secret == b.secureId
    requires a.IsOwnId(id) && a.secureId != b.secureId
    ensures !b.IsOwnId(id)
    ensures b.IsConnectionActive(id) == Threw(NotAnIdError)
    ensures b.Resolve(IdArg(id), cb) == Everyone
  {
  }
}
