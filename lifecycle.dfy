/**
 * Middlewares of the lib service and how their hooks are chained
 * (lib/sse-service-private-methods.js:89-135): the synchronous transforms are
 * composed with `composeDownstream` in registration order; `beforeRegister` runs
 * as a waterfall in registration order and `afterRegister` in reverse order.
 *
 * A middleware's asynchronous hooks are given by what they do before calling
 * `next`: a `beforeRegister` hook may rewrite the request headers and hands
 * over an optional error; an `afterRegister` hook either calls `next` with an
 * optional error or sends a payload to the new connection with `next` as the
 * send callback, as the EventSource polyfill does.
 */
module Lifecycle {
  import opened Wrappers
  import opened Utils
  import opened Maybe
  import opened Http
  import opened Records

  /** What a `beforeRegister` hook leaves in `req.headers` and the error it passes to `next`. */
  datatype BeforeOutcome = BeforeOutcome(headers: Headers, err: Option<ErrorValue>)

  /** `beforeRegister(service, req, res, next)`, seen through the request's headers and query. */
  type BeforeHook = (Headers, map<string, QueryValue>) -> BeforeOutcome

  /** What an `afterRegister` hook does before its continuation runs. */
  datatype AfterStep =
    | Continue(err: Option<ErrorValue>)    // calls `next(err)`
    | SendThen(payload: SendPayload)       // calls `service.send(payload, sseId, next)`

  /** `afterRegister(service, sseId, next)`, given the metadata of the new connection. */
  type AfterHook = Bag -> AfterStep

  /** A middleware object; `None` is a hook that is absent or not a function. */
  datatype Middleware = Middleware(
    beforeRegister: Option<BeforeHook>,
    afterRegister: Option<AfterHook>,
    transformSend: Option<SendPayload -> Try<SendPayload>>,
    transformResponseHeaders: Option<Headers -> Try<Headers>>)

  datatype SyncStep = TransformResponseHeaders | TransformSend

  datatype AsyncStep = BeforeRegister | AfterRegister

  /** The step names `_applyLifecycleHooks` accepts; any other name throws. */
  function SyncStepOf(name: string): (r: Result<SyncStep, ErrorValue>)
    ensures r.Ok? <==> name == "transformResponseHeaders" || name == "transformSend"
    ensures r.Ok? && r.value == TransformSend <==> name == "transformSend"
    ensures r.Err? ==> r.error == ErrorValue("Error", "Unsupported synchronous lifecycle step " + name)
  {
    if name == "transformResponseHeaders" then Ok(TransformResponseHeaders)
    else if name == "transformSend" then Ok(TransformSend)
    else Err(ErrorValue("Error", "Unsupported synchronous lifecycle step " + name))
  }

  /** The step names `_applyAsyncLifecycleHooks` accepts; any other name throws. */
  function AsyncStepOf(name: string): (r: Result<AsyncStep, ErrorValue>)
    ensures r.Ok? <==> name == "beforeRegister" || name == "afterRegister"
    ensures r.Ok? && r.value == AfterRegister <==> name == "afterRegister"
    ensures r.Err? ==> r.error == ErrorValue("Error", "Unsupported asynchronous lifecycle step " + name)
  {
    if name == "beforeRegister" then Ok(BeforeRegister)
    else if name == "afterRegister" then Ok(AfterRegister)
    else Err(ErrorValue("Error", "Unsupported asynchronous lifecycle step " + name))
  }

  /** `isAsyncLifecycleUpstream`: which chain runs in reverse registration order. */
  function IsUpstream(step: AsyncStep): bool {
    step == AfterRegister
  }

  /** `middlewares.filter(mw => typeof mw[step] === 'function').map(mw => mw[step])`. */
  function Select<H>(mws: seq<Middleware>, pick: Middleware -> Option<H>): (r: seq<H>)
    ensures |r| <= |mws|
  {
    if mws == [] then []
    else (if pick(mws[0]).Some? then [pick(mws[0]).value] else []) + Select(mws[1..], pick)
  }

  /** Selecting over two lists of middlewares keeps their order. */
  lemma {:induction false} SelectAppend<H>(a: seq<Middleware>, b: seq<Middleware>, pick: Middleware -> Option<H>)
    ensures Select(a + b, pick) == Select(a, pick) + Select(b, pick)
  {
    if a == [] {
      assert a + b == b;
    } else {
      var head := if pick(a[0]).Some? then [pick(a[0]).value] else [];
      assert (a + b)[0] == a[0] && (a + b)[1..] == a[1..] + b;
      assert Select(a + b, pick) == head + Select(a[1..] + b, pick);
      SelectAppend(a[1..], b, pick);
      assert Select(a, pick) == head + Select(a[1..], pick);
    }
  }

  /** Middlewares without the hook contribute nothing. */
  lemma {:induction false} SelectSkipsMissing<H>(mws: seq<Middleware>, pick: Middleware -> Option<H>)
    requires forall i :: 0 <= i < |mws| ==> pick(mws[i]).None?
    ensures Select(mws, pick) == []
  {
    if mws != [] {
      SelectSkipsMissing(mws[1..], pick);
    }
  }

  function PickHeaders(m: Middleware): Option<Headers -> Try<Headers>> {
    m.transformResponseHeaders
  }

  function PickSend(m: Middleware): Option<SendPayload -> Try<SendPayload>> {
    m.transformSend
  }

  function PickBefore(m: Middleware): Option<BeforeHook> {
    m.beforeRegister
  }

  function PickAfter(m: Middleware): Option<AfterHook> {
    m.afterRegister
  }

  /** `applyLifecycleHooks('transformResponseHeaders', h)`. */
  function TransformHeaders(mws: seq<Middleware>, h: Headers): Try<Headers> {
    ComposeDownstream(Select(mws, PickHeaders))(h)
  }

  /** `applyLifecycleHooks('transformSend', p)`. */
  function TransformPayload(mws: seq<Middleware>, p: SendPayload): Try<SendPayload> {
    ComposeDownstream(Select(mws, PickSend))(p)
  }

  /**
   * A transform registered by a later `use` runs on what the earlier ones
   * returned, and does not run at all if one of them threw.
   */
  lemma LaterTransformRunsLast(mws: seq<Middleware>, m: Middleware, p: SendPayload)
    requires m.transformSend.Some?
    ensures TransformPayload(mws + [m], p) == Then(TransformPayload(mws, p), m.transformSend.value)
  {
    SelectAppend(mws, [m], PickSend);
    assert Select([m], PickSend) == [m.transformSend.value];
    ComposeAppend(Select(mws, PickSend), [m.transformSend.value], p);
  }

  /** Middlewares with no such hook leave the payload untouched. */
  lemma NoTransformIsIdentity(mws: seq<Middleware>, p: SendPayload)
    requires forall i :: 0 <= i < |mws| ==> mws[i].transformSend.None?
    ensures TransformPayload(mws, p) == Returned(p)
  {
    SelectSkipsMissing(mws, PickSend);
  }

  /** The `beforeRegister` waterfall: each hook sees the headers the previous one left; the first error stops it. */
  function BeforeWaterfall(hooks: seq<BeforeHook>, headers: Headers, query: map<string, QueryValue>): BeforeOutcome
    decreases |hooks|
  {
    if hooks == [] then BeforeOutcome(headers, None)
    else
      var o := hooks[0](headers, query);
      if o.err.Some? then o else BeforeWaterfall(hooks[1..], o.headers, query)
  }

  /** Running two chains one after the other is running their concatenation. */
  lemma {:induction false} BeforeWaterfallAppend(a: seq<BeforeHook>, b: seq<BeforeHook>, headers: Headers,
                                                 query: map<string, QueryValue>)
    ensures BeforeWaterfall(a + b, headers, query) ==
            if BeforeWaterfall(a, headers, query).err.Some? then BeforeWaterfall(a, headers, query)
            else BeforeWaterfall(b, BeforeWaterfall(a, headers, query).headers, query)
    decreases |a|
  {
    if a == [] {
      assert a + b == b;
    } else {
      assert (a + b)[1..] == a[1..] + b;
      var o := a[0](headers, query);
      if o.err.None? {
        BeforeWaterfallAppend(a[1..], b, o.headers, query);
      }
    }
  }

  /** A hook that only sets one header. */
  function SetHeader(name: string, value: string): BeforeHook {
    (h: Headers, q: map<string, QueryValue>) => BeforeOutcome(h[name := value], None)
  }

  /** Two hooks setting the same header, in registration order: the later one wins. */
  lemma LaterBeforeHookWins(headers: Headers, query: map<string, QueryValue>, name: string, x: string, y: string)
    ensures BeforeWaterfall([SetHeader(name, x), SetHeader(name, y)], headers, query) ==
            BeforeOutcome(headers[name := y], None)
  {
    var hooks := [SetHeader(name, x), SetHeader(name, y)];
    var o1 := hooks[0](headers, query);
    assert o1 == BeforeOutcome(headers[name := x], None);
    assert hooks[1..] == [SetHeader(name, y)];
    var o2 := hooks[1..][0](o1.headers, query);
    assert o2 == BeforeOutcome(headers[name := x][name := y], None);
    assert hooks[1..][1..] == [];
    assert BeforeWaterfall(hooks, headers, query) == BeforeWaterfall(hooks[1..], o1.headers, query);
    assert BeforeWaterfall(hooks[1..], o1.headers, query) == BeforeWaterfall([], o2.headers, query);
    assert headers[name := x][name := y] == headers[name := y];
  }

  function Reverse<T>(s: seq<T>): (r: seq<T>)
    ensures |r| == |s|
    ensures forall i :: 0 <= i < |s| ==> r[i] == s[|s| - 1 - i]
  {
    if s == [] then [] else Reverse(s[1..]) + [s[0]]
  }

  /** The `beforeRegister` hooks in the order they run. */
  function BeforeChain(mws: seq<Middleware>): seq<BeforeHook> {
    Select(mws, PickBefore)
  }

  /** The `afterRegister` hooks in the order they run: reverse registration order. */
  function AfterChain(mws: seq<Middleware>): seq<AfterHook> {
    Reverse(Select(mws, PickAfter))
  }

  /** The most recently added middleware's `afterRegister` runs first, its `beforeRegister` last. */
  lemma LastAddedIsOutermost(mws: seq<Middleware>, m: Middleware)
    requires m.beforeRegister.Some? && m.afterRegister.Some?
    ensures |AfterChain(mws + [m])| == |AfterChain(mws)| + 1
    ensures AfterChain(mws + [m])[0] == m.afterRegister.value
    ensures AfterChain(mws + [m])[1..] == AfterChain(mws)
    ensures BeforeChain(mws + [m]) == BeforeChain(mws) + [m.beforeRegister.value]
  {
    SelectAppend(mws, [m], PickAfter);
    SelectAppend(mws, [m], PickBefore);
    assert Select([m], PickAfter) == [m.afterRegister.value];
    assert Select([m], PickBefore) == [m.beforeRegister.value];
    var s := Select(mws, PickAfter);
    assert Reverse(s + [m.afterRegister.value])[1..] == Reverse(s);
  }
}
