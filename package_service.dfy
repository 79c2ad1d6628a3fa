/**
 * The package service (packages/sse/lib/sse-service.js with the ID class of
 * packages/sse/lib/sse-id.js): it keeps the active connections in a map from
 * SSEID to response, links each response back to its ID through
 * `res.locals.sse`, and applies writes and unregistrations to the connections
 * a target selects.
 *
 * Every asynchronous step (`process.nextTick`, the callbacks of `res.write` and
 * `res.end`, `async.parallel`) is run to completion in order; what the service
 * emits and the callbacks of its callers that it calls are appended to `log`.
 */
module PackageService {
  import opened Wrappers
  import opened Utils
  import opened Maybe
  import opened Http
  import opened Records
  import opened Targets
  import opened FanOut
  import opened SseRequest
  import opened EventStream
  import Json

  /** Seconds between two heartbeat comments. */
  const HeartbeatInterval: nat := 15

  /** The comment `register` writes to flush the headers. */
  const InitialHeartbeat: string := ":" + HeartbeatMessage + "\n\n"

  /** What `assert.isTrue` throws when an SSEID is constructed with another secret. */
  const ForgedIdError := ErrorValue("Error",
    "Cannot create an instance of the SSEID without the secureId from the factory: Expected predicate to be true")

  /** What `assert.isObject` throws when `send` gets no object. */
  const NotAnObjectError := ErrorValue("Error", "Expected obj to be an object")

  /** What `Object.defineProperty` throws when `res.locals.sse` is already defined. */
  const RedefineError := ErrorValue("TypeError", "Cannot redefine property: sse")

  const RegisterFailure := "Could not register connection"
  const HeartbeatFailure := "Could not send initial heartbeat payload"

  /** The heartbeat `setInterval`, until `close` clears it. */
  datatype Timer = Running(seconds: nat) | Cleared

  /** What the service emits, and the callbacks of its callers that it calls. */
  datatype Emitted =
    | Connection(id: SSEID, locals: Locals?)
    | ClientClose(id: SSEID, locals: Locals?)
    | ErrorEvent(error: ErrorValue)
    | Called(fn: FnId, err: Option<ErrorValue>, results: Option<nat>)

  /**
   * What `applyForTarget` passes to its callback: nothing for an inactive ID,
   * `cb(err)` after the one connection of an active ID, or what
   * `async.parallel` passes (`cb(err)`, or `cb(null, results)` with one result
   * per connection; the partial results that come with an error are not modelled).
   */
  datatype Answer = Silent | Answer(err: Option<ErrorValue>, results: Option<nat>)

  /** The answer after the action ran on responses in states `ws`; `one` is the single-ID path. */
  function Answered(one: bool, a: Action, ws: seq<Wire>): (r: Answer)
    ensures r.Silent? <==> one && ws == []
    ensures one && ws != [] ==> r == Answer(ActionError(a, ws[0]), None)
    ensures !one ==> r.err == FirstError(a, ws) && (r.results.Some? <==> r.err.None?)
    ensures !one && r.results.Some? ==> r.results.value == |ws|
  {
    if one then (if ws == [] then Silent else Answer(ActionError(a, ws[0]), None))
    else
      var e := FirstError(a, ws);
      if e.Some? then Answer(e, None) else Answer(None, Some(|ws|))
  }

  /** The call of the caller's callback: nothing for `() => null`, nor when no answer comes. */
  function Report(cb: Fn, ans: Answer): (r: seq<Emitted>)
    ensures r == [] <==> cb.id == DefaultCallback || ans.Silent?
    ensures r != [] ==> r == [Called(cb.id, ans.err, ans.results)]
  {
    if cb.id == DefaultCallback || ans.Silent? then [] else [Called(cb.id, ans.err, ans.results)]
  }

  /** `sse.lastEventId` is set only when the request header is truthy. */
  function LocalsLastEventId(headers: Headers): (r: Option<string>)
    ensures r.Some? <==> "last-event-id" in headers && headers["last-event-id"] != ""
    ensures r.Some? ==> r.value == headers["last-event-id"]
  {
    if "last-event-id" in headers && headers["last-event-id"] != "" then Some(headers["last-event-id"]) else None
  }

  /** The flushing comment is the heartbeat record, which a client reads as no event at all. */
  lemma InitialHeartbeatIsHeartbeatRecord(p: Parser)
    requires AtBoundary(p)
    ensures InitialHeartbeat == EncodeTruthy(PackageHeartbeat)
    ensures Parse(p, InitialHeartbeat) == p.(lastEventId := p.lastEventIdBuffer)
  {
    assert Json.NoLineBreak(HeartbeatMessage);
    ReceiveComment(p, HeartbeatMessage);
  }

  /**
   * `writeSSELocalsInResponse(req, res, sseId)`: gives the response a `locals`
   * object if it has none, then defines the non-configurable `locals.sse`,
   * which throws if an `sse` property is already defined.
   */
  method WriteSSELocals(req: Request, res: Response, id: SSEID) returns (thrown: Option<ErrorValue>)
    modifies res, res.locals
    ensures res.locals != null && res.wire == old(res.wire)
    ensures old(res.locals) != null ==> res.locals == old(res.locals) && res.locals.bag == old(res.locals.bag)
    ensures old(res.locals) == null ==> fresh(res.locals) && res.locals.bag == map[]
    ensures thrown.Some? <==> old(res.locals) != null && old(res.locals.sse).Some?
    ensures thrown.Some? ==> thrown.value == RedefineError && res.locals.sse == old(res.locals.sse)
    ensures thrown.None? ==> res.locals.sse == Some(SseLocals(LocalsLastEventId(req.headers), id))
  {
    if res.locals == null {
      res.locals := new Locals();
    }
    if res.locals.sse.Some? {
      return Some(RedefineError);
    }
    res.locals.sse := Some(SseLocals(LocalsLastEventId(req.headers), id));
    thrown := None;
  }

  // ---- Which connections a target selects --------------------------------------

  function ResponsesOf(conns: map<SSEID, Response>): set<Response> {
    set id | id in conns :: conns[id]
  }

  function LocalsOf(conns: map<SSEID, Response>): set<Locals>
    reads ResponsesOf(conns)
  {
    set id | id in conns && conns[id].locals != null :: conns[id].locals
  }

  /** Whether a resolved target selects the active connection `id`. */
  predicate Selects(t: Resolved<SSEID>, id: SSEID, conns: map<SSEID, Response>)
    reads ResponsesOf(conns), LocalsOf(conns)
  {
    id in conns
    && match t
       case OneId(o) => o == id
       case Matching(p) => p.call(BagOf(conns[id]))
       case Everyone => true
  }

  /** The IDs of `ids` that `t` selects, in order. */
  function Filter(ids: seq<SSEID>, t: Resolved<SSEID>, conns: map<SSEID, Response>): (r: seq<SSEID>)
    reads ResponsesOf(conns), LocalsOf(conns)
    ensures forall x :: x in r ==> x in conns
  {
    if ids == [] then []
    else
      var last := ids[|ids| - 1];
      Filter(ids[..|ids| - 1], t, conns) + (if Selects(t, last, conns) then [last] else [])
  }

  /** The selection holds exactly the IDs the target selects. */
  lemma {:induction false} FilterMembers(ids: seq<SSEID>, t: Resolved<SSEID>, conns: map<SSEID, Response>)
    ensures forall x :: x in Filter(ids, t, conns) ==> x in ids && Selects(t, x, conns)
    ensures forall x :: x in ids && Selects(t, x, conns) ==> x in Filter(ids, t, conns)
  {
    if ids != [] {
      var init := ids[..|ids| - 1];
      assert ids == init + [ids[|ids| - 1]];
      FilterMembers(init, t, conns);
    }
  }

  lemma {:induction false} FilterDistinct(ids: seq<SSEID>, t: Resolved<SSEID>, conns: map<SSEID, Response>)
    requires Distinct(ids)
    ensures Distinct(Filter(ids, t, conns))
  {
    if ids != [] {
      var init := ids[..|ids| - 1];
      assert Distinct(init) by {
        forall i, j | 0 <= i < j < |init| ensures init[i] != init[j] {
          assert init[i] == ids[i] && init[j] == ids[j];
        }
      }
      FilterDistinct(init, t, conns);
      FilterMembers(init, t, conns);
      var last := ids[|ids| - 1];
      assert last !in init by {
        forall k | 0 <= k < |init| ensures init[k] != last {
          assert init[k] == ids[k];
        }
      }
    }
  }

  /** With distinct IDs, one ID selects itself once if it is active, and nothing otherwise. */
  lemma {:induction false} FilterOne(ids: seq<SSEID>, id: SSEID, conns: map<SSEID, Response>)
    requires Distinct(ids)
    ensures Filter(ids, OneId(id), conns) == if id in ids && id in conns then [id] else []
  {
    if ids != [] {
      var init, last := ids[..|ids| - 1], ids[|ids| - 1];
      assert ids == init + [last];
      assert Distinct(init) by {
        forall i, j | 0 <= i < j < |init| ensures init[i] != init[j] {
          assert init[i] == ids[i] && init[j] == ids[j];
        }
      }
      FilterOne(init, id, conns);
      if last == id {
        assert id !in init by {
          forall k | 0 <= k < |init| ensures init[k] != last {
            assert init[k] == ids[k];
          }
        }
      }
    }
  }

  lemma {:induction false} FilterEveryone(ids: seq<SSEID>, conns: map<SSEID, Response>)
    requires forall x :: x in ids ==> x in conns
    ensures Filter(ids, Everyone, conns) == ids
  {
    if ids != [] {
      var init := ids[..|ids| - 1];
      assert ids == init + [ids[|ids| - 1]];
      FilterEveryone(init, conns);
    }
  }

  /** The responses of some active IDs, in the same order. */
  function ResOf(ids: seq<SSEID>, conns: map<SSEID, Response>): (rs: seq<Response>)
    requires forall x :: x in ids ==> x in conns
    ensures |rs| == |ids| && forall i :: 0 <= i < |ids| ==> rs[i] == conns[ids[i]]
  {
    seq(|ids|, i requires 0 <= i < |ids| => conns[ids[i]])
  }

  /** The responses listed carry the action's effect; the others of `all` are untouched. */
  twostate predicate Touched(a: Action, rs: seq<Response>, all: set<Response>)
    reads rs, all
  {
    (forall i :: 0 <= i < |rs| ==> ActedOn(a, rs[i]))
    && (forall r :: r in all && r !in rs ==> unchanged(r))
  }

  /** An SSEID of the package: `sseService` is the service whose class made it. */
  class SSEID {
    const service: SSEService

    /** `new SSEID(secureId)` once the secret check has passed. */
    constructor (service: SSEService, secureId: string)
      requires secureId == service.secureId
      ensures this.service == service
    {
      this.service := service;
    }

    /** The `isConnectionActive` getter: whether the service's map has this ID. */
    predicate IsConnectionActive()
      reads service
    {
      this in service.conns
    }
  }

  class SSEService {
    /** The uuid drawn at construction; a parameter here. */
    const secureId: string
    /** The keys of `activeSSEConnections` in insertion order. */
    var order: seq<SSEID>
    /** `activeSSEConnections`. */
    var conns: map<SSEID, Response>
    var blockIncomingConnections: bool
    var heartbeat: Timer
    var log: seq<Emitted>

    function Responses(): set<Response>
      reads this
    {
      ResponsesOf(conns)
    }

    function LocalsObjects(): set<Locals>
      reads this, Responses()
    {
      LocalsOf(conns)
    }

    /** `res.locals.sse.sseId` is `id`. */
    predicate Linked(r: Response, id: SSEID)
      reads r, r.locals
    {
      r.locals != null && r.locals.sse.Some? && r.locals.sse.value.sseId == id
    }

    /**
     * The map and its insertion order agree, every key is an ID of this
     * service, and each response links back to its ID through its locals.
     */
    ghost predicate Valid()
      reads this, Responses(), LocalsObjects()
    {
      Distinct(order)
      && (forall id :: id in conns ==> id in order)
      && (forall id :: id in order ==> id in conns)
      && (forall id :: id in conns ==> id.service == this && Linked(conns[id], id))
    }

    /** `x instanceof internal(this).SSEID`. */
    predicate IsOwnId(x: object) {
      x is SSEID && (x as SSEID).service == this
    }

    constructor (secureId: string)
      ensures this.secureId == secureId
      ensures order == [] && conns == map[]
      ensures !blockIncomingConnections && heartbeat == Running(HeartbeatInterval) && log == []
      ensures Valid()
    {
      this.secureId := secureId;
      order := [];
      conns := map[];
      blockIncomingConnections := false;
      heartbeat := Running(HeartbeatInterval);
      log := [];
    }

    /** `new service.SSEID(secureId)`: only the service's own secret produces an ID. */
    method Mint(secret: string) returns (r: Result<SSEID, ErrorValue>)
      ensures r.Ok? <==> secret == secureId
      ensures r.Ok? ==> fresh(r.value) && r.value.service == this && !r.value.IsConnectionActive()
      ensures r.Err? ==> r.error == ForgedIdError
    {
      if secret != secureId {
        return Err(ForgedIdError);
      }
      var id := new SSEID(this, secret);
      r := Ok(id);
    }

    /** The connections a target selects, in map order. */
    function Selected(t: Resolved<SSEID>): seq<SSEID>
      reads this, Responses(), LocalsObjects()
    {
      Filter(order, t, conns)
    }

    /** `getSSEIdFromResponse(res, SSEID)`: `res.locals.sse.sseId` if it is an ID of this service. */
    function GetSSEIdFromResponse(res: Response): (r: SSEID?)
      reads res, res.locals
      ensures r != null <==> res.locals != null && res.locals.sse.Some? && IsOwnId(res.locals.sse.value.sseId)
      ensures r != null ==> Linked(res, r)
    {
      if res.locals != null && res.locals.sse.Some? && IsOwnId(res.locals.sse.value.sseId)
      then res.locals.sse.value.sseId as SSEID
      else null
    }

    /** Under the invariant, an active connection's response leads back to its ID, and to no other. */
    lemma BackLink(id: SSEID)
      requires Valid() && id in conns
      ensures GetSSEIdFromResponse(conns[id]) == id
      ensures forall other :: other in conns && other != id ==> conns[other] != conns[id]
    {
    }

    /**
     * A response that does not lead back to an ID of this service is no active
     * connection's, and shares its locals object with none of them.
     */
    lemma UnlinkedIsInactive(res: Response)
      requires Valid() && GetSSEIdFromResponse(res) == null
      ensures res !in Responses()
      ensures forall x :: x in conns ==> conns[x] != res && conns[x].locals != res.locals
    {
    }

    /** An ID is active exactly when it is in the map's insertion order. */
    lemma ActiveIffListed(id: SSEID)
      requires Valid() && id.service == this
      ensures id.IsConnectionActive() <==> id in order
    {
    }

    /** `numActiveConnections`: the size of the map. */
    function NumActiveConnections(): (n: nat)
      reads this
      ensures n == |conns.Keys|
    {
      |conns|
    }

    /** `null` selects every active connection, and every response in the map is one of theirs. */
    lemma EveryResponseListed()
      requires Valid()
      ensures Selected(Everyone) == order
      ensures forall r :: r in Responses() ==> r in ResOf(order, conns)
    {
      FilterEveryone(order, conns);
      var rs := ResOf(order, conns);
      forall r | r in Responses() ensures r in rs {
        var x :| x in conns && conns[x] == r;
        var k :| 0 <= k < |order| && order[k] == x;
        assert rs[k] == r;
      }
    }

    /** The count is the number of IDs in insertion order, one per active connection. */
    lemma NumActiveIsOrderLength()
      requires Valid()
      ensures NumActiveConnections() == |order|
    {
      DistinctCard(order);
      assert conns.Keys == set x | x in order;
    }

    /** `activeSSEConnections.delete(id)`. */
    method Delete(id: SSEID)
      requires Valid()
      modifies this
      ensures conns == old(conns) - {id} && order == Without(old(order), {id})
      ensures blockIncomingConnections == old(blockIncomingConnections)
      ensures heartbeat == old(heartbeat) && log == old(log)
      ensures Valid()
    {
      WithoutDistinct(order, {id});
      WithoutMembers(order, {id});
      conns := conns - {id};
      order := Without(order, {id});
    }

    /**
     * The `finish` callback of the unregistering `fn` for the response of `id`:
     * it deletes the ID the response's locals lead back to, which is `id` itself.
     */
    method Finish(id: SSEID)
      requires Valid() && id in conns
      modifies this
      ensures conns == old(conns) - {id} && order == Without(old(order), {id})
      ensures blockIncomingConnections == old(blockIncomingConnections)
      ensures heartbeat == old(heartbeat) && log == old(log)
      ensures Valid()
    {
      BackLink(id);
      var sseId := GetSSEIdFromResponse(conns[id]);
      if sseId != null {
        Delete(sseId);
      }
    }

    /** The `finish` callbacks of the unregistered connections, once every response has ended. */
    method Forget(sel: seq<SSEID>)
      requires Valid() && Distinct(sel) && forall x :: x in sel ==> x in conns
      modifies this
      ensures conns == old(conns) - Elems(sel) && order == Without(old(order), Elems(sel))
      ensures blockIncomingConnections == old(blockIncomingConnections)
      ensures heartbeat == old(heartbeat) && log == old(log)
      ensures Valid()
      decreases |sel|
    {
      if sel == [] {
        WithoutNone(order);
        assert Elems(sel) == {};
      } else {
        var id, rest := sel[0], sel[1..];
        assert Elems(sel) == {id} + Elems(rest) by {
          assert sel == [id] + rest;
        }
        assert Distinct(rest) && id !in rest by {
          forall i, j | 0 <= i < j < |rest| ensures rest[i] != rest[j] {
            assert rest[i] == sel[i + 1] && rest[j] == sel[j + 1];
          }
          forall k | 0 <= k < |rest| ensures rest[k] != id {
            assert rest[k] == sel[k + 1];
          }
        }
        ghost var order0, conns0 := order, conns;
        Finish(id);
        Forget(rest);
        WithoutTwice(order0, {id}, Elems(rest));
        MapMinusTwice(conns0, {id}, Elems(rest));
      }
    }

    /**
     * The whole state after an action ran on the connections `sel` with
     * responses `rs`: those carry its effect, every other response of `all` is
     * untouched, and only unregistration shrinks the map.
     */
    twostate predicate FannedOut(a: Action, sel: seq<SSEID>, rs: seq<Response>, all: set<Response>)
      reads this, rs, all
    {
      Touched(a, rs, all)
      && (a.WriteChunk? ==> conns == old(conns) && order == old(order))
      && (a.EndAndRemove? ==> conns == old(conns) - Elems(sel) && order == Without(old(order), Elems(sel)))
      && blockIncomingConnections == old(blockIncomingConnections) && heartbeat == old(heartbeat)
    }

    /**
     * Distinct active IDs have distinct responses, and an active connection
     * outside the selection keeps a response no selected ID has.
     */
    lemma DistinctResponses(sel: seq<SSEID>)
      requires Valid() && Distinct(sel) && forall x :: x in sel ==> x in conns
      ensures Distinct(ResOf(sel, conns))
      ensures forall r :: r in ResOf(sel, conns) ==> r in Responses()
      ensures forall x :: x in conns && x !in sel ==> conns[x] !in ResOf(sel, conns)
    {
      var rs := ResOf(sel, conns);
      forall i, j | 0 <= i < j < |rs| ensures rs[i] != rs[j] {
        BackLink(sel[i]);
      }
      forall x, i | x in conns && x !in sel && 0 <= i < |rs|
        ensures rs[i] != conns[x]
      {
        BackLink(x);
        assert sel[i] in conns && sel[i] != x;
      }
    }

    /** `fn` on the response of an active ID: its error, its effect, and for unregistration the `finish` callback. */
    method ApplyToActive(a: Action, id: SSEID) returns (e: Option<ErrorValue>)
      requires Valid() && id in conns
      modifies this, Responses()
      ensures e == ActionError(a, old(conns[id].wire))
      ensures Touched(a, [old(conns[id])], old(Responses()))
      ensures a.WriteChunk? ==> conns == old(conns) && order == old(order)
      ensures a.EndAndRemove? ==> conns == old(conns) - {id} && order == Without(old(order), {id})
      ensures blockIncomingConnections == old(blockIncomingConnections) && heartbeat == old(heartbeat)
      ensures log == old(log)
      ensures Valid()
    {
      var res := conns[id];
      ghost var all := Responses();
      DistinctResponses([id]);
      e := Perform(a, res);
      assert Touched(a, [res], all);
      if a.EndAndRemove? {
        Finish(id);
      }
    }

    /** `applyForTarget` with an ID of this service: nothing if it is inactive, else `fn` on its response. */
    method ApplyToOne(a: Action, id: SSEID) returns (ans: Answer)
      requires Valid()
      modifies this, Responses()
      ensures ans == Answered(true, a, old(WiresOf(ResOf(Selected(OneId(id)), conns))))
      ensures FannedOut(a, old(Selected(OneId(id))), old(ResOf(Selected(OneId(id)), conns)), old(Responses()))
      ensures log == old(log)
      ensures Valid()
    {
      FilterOne(order, id, conns);
      ghost var chosen := Selected(OneId(id));
      ghost var rs := ResOf(chosen, conns);
      ghost var ws := WiresOf(rs);
      ghost var all := Responses();
      if id !in conns {
        assert chosen == [] && ws == [];
        WithoutNone(order);
        assert Elems(chosen) == {};
        ans := Silent;
      } else {
        assert chosen == [id] && rs == [conns[id]] && ws == [conns[id].wire];
        var e := ApplyToActive(a, id);
        assert Elems(chosen) == {id};
        ans := Answer(e, None);
      }
      assert ans == Answered(true, a, ws);
      assert FannedOut(a, chosen, rs, all);
    }

    /** The `async.parallel` step: the action runs on the response of every ID in `sel`, in order. */
    method Broadcast(a: Action, sel: seq<SSEID>) returns (rs: seq<Response>, first: Option<ErrorValue>)
      requires Valid() && Distinct(sel) && forall x :: x in sel ==> x in conns
      modifies Responses()
      ensures rs == ResOf(sel, conns)
      ensures first == FirstError(a, old(WiresOf(rs)))
      ensures Touched(a, rs, old(Responses()))
      ensures Valid()
    {
      DistinctResponses(sel);
      rs := ResOf(sel, conns);
      first := PerformAll(a, rs);
      forall id | id in conns ensures conns[id].locals == old(conns[id].locals) {
        if conns[id] in rs {
          var i :| 0 <= i < |rs| && rs[i] == conns[id];
        }
      }
    }

    /**
     * The loop of `applyForTarget` for a predicate or `null`: collect, in map
     * order, the connections whose `res.locals` the target accepts, then run
     * the action on each.
     */
    method BroadcastSelected(a: Action, t: Resolved<SSEID>) returns (sel: seq<SSEID>, rs: seq<Response>, first: Option<ErrorValue>)
      requires Valid() && !t.OneId?
      modifies Responses()
      ensures sel == old(Selected(t)) && rs == old(ResOf(Selected(t), conns))
      ensures Distinct(sel)
      ensures forall x :: x in sel ==> x in conns
      ensures first == FirstError(a, old(WiresOf(rs)))
      ensures Touched(a, rs, old(Responses()))
      ensures Valid()
    {
      sel := [];
      var i := 0;
      while i < |order|
        invariant 0 <= i <= |order|
        invariant sel == Filter(order[..i], t, conns)
      {
        var id := order[i];
        var res := conns[id];
        assert order[..i + 1][..i] == order[..i];
        if t.Everyone? || t.pred.call(BagOf(res)) {
          sel := sel + [id];
        }
        i := i + 1;
      }
      assert order[..i] == order;
      FilterDistinct(order, t, conns);
      rs, first := Broadcast(a, sel);
    }

    /** `applyForTarget(fn, …)` with a predicate or `null`, for a write. */
    method WriteToSelection(chunk: string, t: Resolved<SSEID>) returns (ans: Answer)
      requires Valid() && !t.OneId?
      modifies Responses()
      ensures ans == Answered(false, WriteChunk(chunk), old(WiresOf(ResOf(Selected(t), conns))))
      ensures FannedOut(WriteChunk(chunk), old(Selected(t)), old(ResOf(Selected(t), conns)), old(Responses()))
      ensures Valid()
    {
      var sel, rs, first := BroadcastSelected(WriteChunk(chunk), t);
      ans := if first.Some? then Answer(first, None) else Answer(None, Some(|sel|));
    }

    /** `applyForTarget(fn, …)` of `unregister` with a predicate or `null`: end the responses, then forget them. */
    method EndSelection(t: Resolved<SSEID>) returns (ans: Answer)
      requires Valid() && !t.OneId?
      modifies this, Responses()
      ensures ans == Answered(false, EndAndRemove, old(WiresOf(ResOf(Selected(t), conns))))
      ensures FannedOut(EndAndRemove, old(Selected(t)), old(ResOf(Selected(t), conns)), old(Responses()))
      ensures log == old(log)
      ensures Valid()
    {
      ghost var all := Responses();
      var sel, rs, first := BroadcastSelected(EndAndRemove, t);
      ghost var ws := old(WiresOf(rs));
      assert Touched(EndAndRemove, rs, all);
      Forget(sel);
      assert Touched(EndAndRemove, rs, all);
      ans := if first.Some? then Answer(first, None) else Answer(None, Some(|sel|));
      assert ans == Answered(false, EndAndRemove, ws);
    }

    /** `applyForTarget` after normalisation. */
    method ApplyResolved(a: Action, t: Resolved<SSEID>) returns (ans: Answer)
      requires Valid()
      modifies this, Responses()
      ensures ans == Answered(t.OneId?, a, old(WiresOf(ResOf(Selected(t), conns))))
      ensures FannedOut(a, old(Selected(t)), old(ResOf(Selected(t), conns)), old(Responses()))
      ensures log == old(log)
      ensures Valid()
    {
      if t.OneId? {
        ans := ApplyToOne(a, t.id);
      } else if a.WriteChunk? {
        ans := WriteToSelection(a.chunk, t);
      } else {
        ans := EndSelection(t);
      }
    }

    /** The target `applyForTarget` is left with once `cb` is `maybeFn(cb || target)`. */
    function Resolve(target: Arg<object>, cb: Arg<object>): (r: Resolved<SSEID>)
      ensures r.OneId? <==> target.IdArg? && IsOwnId(target.id)
      ensures r.OneId? ==> r.id == target.id
      ensures r.Matching? <==> target.Func? && !Same(target.f, Callback(target, cb))
      ensures r.Matching? ==> r.pred == target.f
    {
      match Normalise(target, cb, (x: object) => IsOwnId(x))
      case OneId(x) => OneId(x as SSEID)
      case Matching(f) => Matching(f)
      case Everyone => Everyone
    }

    /**
     * `applyForTarget(fn, target, cb)`: the action runs on every connection the
     * target selects, then the callback hears of it, unless the target is an
     * inactive ID.
     */
    method ApplyForTarget(a: Action, target: Arg<object>, cb: Arg<object>)
      requires Valid()
      modifies this, Responses()
      ensures FannedOut(a, old(Selected(Resolve(target, cb))), old(ResOf(Selected(Resolve(target, cb)), conns)),
                        old(Responses()))
      ensures log == old(log) + Report(Callback(target, cb),
                                       Answered(Resolve(target, cb).OneId?, a,
                                                old(WiresOf(ResOf(Selected(Resolve(target, cb)), conns)))))
      ensures Valid()
    {
      var ans := ApplyResolved(a, Resolve(target, cb));
      log := log + Report(Callback(target, cb), ans);
    }

    /** `unregister(target, cb)`: every selected connection is ended and leaves the map. */
    method Unregister(target: Arg<object>, cb: Arg<object>)
      requires Valid()
      modifies this, Responses()
      ensures FannedOut(EndAndRemove, old(Selected(Resolve(target, cb))),
                        old(ResOf(Selected(Resolve(target, cb)), conns)), old(Responses()))
      ensures forall x :: x in old(Selected(Resolve(target, cb))) ==> x !in conns
      ensures target.IdArg? && IsOwnId(target.id) ==> target.id !in conns
      ensures log == old(log) + Report(Callback(target, cb),
                                       Answered(Resolve(target, cb).OneId?, EndAndRemove,
                                                old(WiresOf(ResOf(Selected(Resolve(target, cb)), conns)))))
      ensures Valid()
    {
      if target.IdArg? && IsOwnId(target.id) {
        FilterOne(order, target.id as SSEID, conns);
      }
      ApplyForTarget(EndAndRemove, target, cb);
    }

    /** `unregister(null, cb)`: every connection is ended and the map is emptied. */
    method UnregisterAll(cb: Arg<object>)
      requires Valid()
      modifies this, Responses()
      ensures conns == map[] && order == []
      ensures forall r :: r in old(Responses()) ==> r.wire == old(r.wire).AfterEnd(None)
      ensures blockIncomingConnections == old(blockIncomingConnections) && heartbeat == old(heartbeat)
      ensures log == old(log) + Report(Callback(Other(false), cb),
                                       Answered(false, EndAndRemove, old(WiresOf(ResOf(order, conns)))))
      ensures Valid()
    {
      assert Resolve(Other(false), cb) == Everyone;
      EveryResponseListed();
      ghost var all, conns0 := order, conns;
      ghost var rs := ResOf(order, conns);
      ghost var before := Responses();
      Unregister(Other(false), cb);
      assert Touched(EndAndRemove, rs, before);
      WithoutAll(all, Elems(all));
      MinusAll(conns0, Elems(all));
    }

    /** `close(cb)`: refuse new connections, stop the heartbeat and unregister every connection. */
    method Close(cb: Arg<object>)
      requires Valid()
      modifies this, Responses()
      ensures blockIncomingConnections && heartbeat == Cleared
      ensures conns == map[] && order == []
      ensures forall r :: r in old(Responses()) ==> r.wire == old(r.wire).AfterEnd(None)
      ensures log == old(log) + Report(Callback(Other(false), cb),
                                       Answered(false, EndAndRemove, old(WiresOf(ResOf(order, conns)))))
      ensures Valid()
    {
      blockIncomingConnections := true;
      heartbeat := Cleared;
      UnregisterAll(cb);
    }

    /**
     * `send(opts, target, cb)`: anything but an object throws; an object's
     * truthy fields are written as one record to every selected connection.
     */
    method Send(opts: SendPayload, target: Arg<object>, cb: Arg<object>) returns (thrown: Option<ErrorValue>)
      requires Valid()
      modifies this, Responses()
      ensures opts.Text? ==> thrown == Some(NotAnObjectError) && log == old(log)
                             && conns == old(conns) && order == old(order)
                             && forall r :: r in old(Responses()) ==> unchanged(r)
      ensures opts.Structured? ==>
                thrown.None?
                && FannedOut(WriteChunk(EncodeTruthy(opts.fields)), old(Selected(Resolve(target, cb))),
                             old(ResOf(Selected(Resolve(target, cb)), conns)), old(Responses()))
                && log == old(log) + Report(Callback(target, cb),
                                            Answered(Resolve(target, cb).OneId?, WriteChunk(EncodeTruthy(opts.fields)),
                                                     old(WiresOf(ResOf(Selected(Resolve(target, cb)), conns)))))
      ensures blockIncomingConnections == old(blockIncomingConnections) && heartbeat == old(heartbeat)
      ensures Valid()
    {
      if opts.Text? {
        return Some(NotAnObjectError);
      }
      ApplyForTarget(WriteChunk(EncodeTruthy(opts.fields)), target, cb);
      thrown := None;
    }

    /** `resetEventId(target, cb)`: an `id` field with an empty value goes to every selected connection. */
    method ResetEventId(target: Arg<object>, cb: Arg<object>)
      requires Valid()
      modifies this, Responses()
      ensures FannedOut(WriteChunk(ResetRecord), old(Selected(Resolve(target, cb))),
                        old(ResOf(Selected(Resolve(target, cb)), conns)), old(Responses()))
      ensures log == old(log) + Report(Callback(target, cb),
                                       Answered(Resolve(target, cb).OneId?, WriteChunk(ResetRecord),
                                                old(WiresOf(ResOf(Selected(Resolve(target, cb)), conns)))))
      ensures Valid()
    {
      ApplyForTarget(WriteChunk(ResetRecord), target, cb);
    }

    /** One tick of the heartbeat interval: `send({comment: 'heartbeat'})` to every connection, without a callback. */
    method HeartbeatTick()
      requires Valid() && heartbeat.Running?
      modifies this, Responses()
      ensures forall r :: r in old(Responses()) ==> r.wire == old(r.wire).AfterWrite(InitialHeartbeat)
      ensures conns == old(conns) && order == old(order) && log == old(log)
      ensures heartbeat == old(heartbeat) && blockIncomingConnections == old(blockIncomingConnections)
      ensures Valid()
    {
      EveryResponseListed();
      ghost var rs := ResOf(order, conns);
      ghost var all := Responses();
      var none: Arg<object> := Other(false);
      assert Resolve(none, none) == Everyone;
      assert Callback(none, none).id == DefaultCallback;
      assert EncodeTruthy(PackageHeartbeat) == InitialHeartbeat;
      var thrown := Send(Structured(PackageHeartbeat), none, none);
      assert Touched(WriteChunk(InitialHeartbeat), rs, all);
    }

    /**
     * The `close` listener of a registered response: unregister its ID; once
     * that is done, `clientClose` is emitted. An ID no longer active is not
     * unregistered, so nothing is emitted.
     */
    method OnResponseClose(id: SSEID, res: Response)
      requires Valid() && id.service == this
      modifies this, Responses()
      ensures id !in conns
      ensures FannedOut(EndAndRemove, old(Selected(OneId(id))), old(ResOf(Selected(OneId(id)), conns)),
                        old(Responses()))
      ensures log == old(log) + if id in old(conns) then [ClientClose(id, res.locals)] else []
      ensures Valid()
    {
      FilterOne(order, id, conns);
      ghost var active := id in conns;
      ghost var chosen := Selected(OneId(id));
      assert active ==> chosen == [id] && ResOf(chosen, conns) == [conns[id]];
      var ans := ApplyToOne(EndAndRemove, id);
      assert ans.Silent? <==> !active;
      if !ans.Silent? {
        log := log + [ClientClose(id, res.locals)];
      }
    }

    /** The `finish` listener of a registered response: unregister its ID, with no callback. */
    method OnResponseFinish(id: SSEID)
      requires Valid() && id.service == this
      modifies this, Responses()
      ensures id !in conns
      ensures FannedOut(EndAndRemove, old(Selected(OneId(id))), old(ResOf(Selected(OneId(id)), conns)),
                        old(Responses()))
      ensures log == old(log)
      ensures Valid()
    {
      Unregister(IdArg(id), Other(false));
    }

    // ---- Registration ------------------------------------------------------

    /**
     * The end of `register`: the flushing heartbeat is written, and only once
     * that succeeds is the connection added to the map and `connection` emitted.
     */
    method Establish(res: Response, id: SSEID)
      requires Valid() && id.service == this && id !in conns
      requires Linked(res, id) && res !in Responses()
      requires forall x :: x in conns ==> conns[x].locals != res.locals
      modifies this, res
      ensures res.wire == old(res.wire).AfterWrite(InitialHeartbeat) && res.locals == old(res.locals)
      ensures old(res.wire).Writable() ==>
                conns == old(conns)[id := res] && order == old(order) + [id]
                && log == old(log) + [Connection(id, res.locals)]
      ensures !old(res.wire).Writable() ==>
                conns == old(conns) && order == old(order)
                && log == old(log) + [ErrorEvent(Wrapped(old(res.wire).WriteError(), HeartbeatFailure, None))]
      ensures blockIncomingConnections == old(blockIncomingConnections) && heartbeat == old(heartbeat)
      ensures Valid()
    {
      var err := res.Write(InitialHeartbeat);
      if err != null {
        log := log + [ErrorEvent(Wrapped(err.Value(), HeartbeatFailure, None))];
        return;
      }
      assert id !in order;
      conns := conns[id := res];
      order := order + [id];
      log := log + [Connection(id, res.locals)];
    }

    /** The `catch` of `register`: the error is emitted and the response answered with a 500. */
    method FailRegistration(res: Response, e: ErrorValue)
      requires Valid() && res !in Responses() && !res.wire.headersSent
      modifies this, res
      ensures res.wire == old(res.wire).AfterWriteHead(500, map[]).AfterEnd(None) && res.locals == old(res.locals)
      ensures log == old(log) + [ErrorEvent(Wrapped(e, RegisterFailure, None))]
      ensures conns == old(conns) && order == old(order)
      ensures blockIncomingConnections == old(blockIncomingConnections) && heartbeat == old(heartbeat)
      ensures Valid()
    {
      log := log + [ErrorEvent(Wrapped(e, RegisterFailure, None))];
      var again := res.WriteHead(500, map[]);
      var ended := res.End(None);
    }

    /**
     * `register` for a valid request whose response no ID of this service owns
     * yet: the `try` block mints an ID, writes `res.locals.sse` and sends
     * status 200 with the SSE headers; if it throws, an error is emitted and
     * the response is answered with a 500.
     */
    method Admit(req: Request, res: Response)
      requires Valid() && GetSSEIdFromResponse(res) == null && !res.wire.headersSent
      modifies this, res, res.locals
      ensures old(res.locals) != null && old(res.locals.sse).Some? ==>
                res.locals == old(res.locals) && res.locals.sse == old(res.locals.sse)
                && res.wire == old(res.wire).AfterWriteHead(500, map[]).AfterEnd(None)
                && conns == old(conns) && order == old(order)
                && log == old(log) + [ErrorEvent(Wrapped(RedefineError, RegisterFailure, None))]
      ensures !(old(res.locals) != null && old(res.locals.sse).Some?) ==>
                res.locals != null
                && (old(res.locals) == null ==> fresh(res.locals) && res.locals.bag == map[])
                && (old(res.locals) != null ==> res.locals == old(res.locals) && res.locals.bag == old(res.locals.bag))
                && res.locals.sse.Some? && IsOwnId(res.locals.sse.value.sseId)
                && fresh(res.locals.sse.value.sseId)
                && res.locals.sse.value.lastEventId == LocalsLastEventId(req.headers)
                && GetSSEIdFromResponse(res) == res.locals.sse.value.sseId
                && res.wire == old(res.wire).AfterWriteHead(200, SseHttpResponseHeaders).AfterWrite(InitialHeartbeat)
                && var id := res.locals.sse.value.sseId as SSEID;
                (old(res.wire).Writable() ==>
                   conns == old(conns)[id := res] && order == old(order) + [id]
                   && log == old(log) + [Connection(id, res.locals)])
                && (!old(res.wire).Writable() ==>
                      conns == old(conns) && order == old(order)
                      && log == old(log) + [ErrorEvent(Wrapped(old(res.wire).WriteError(), HeartbeatFailure, None))])
      ensures blockIncomingConnections == old(blockIncomingConnections) && heartbeat == old(heartbeat)
      ensures Valid()
    {
      UnlinkedIsInactive(res);
      ghost var listed, held := Responses(), LocalsObjects();
      var id := new SSEID(this, secureId);
      var thrown := WriteSSELocals(req, res, id);
      assert listed == Responses() && held == LocalsObjects();
      assert Valid();
      if thrown.Some? {
        FailRegistration(res, thrown.value);
        return;
      }
      var sent := res.WriteHead(200, SseHttpResponseHeaders);
      Establish(res, id);
    }

    /**
     * `register(req, res)`: while connections are refused, a 204 that ends the
     * response; an invalid request gets its status and a JSON error body; a
     * response already registered here is left alone; any other is admitted.
     * `writeHead` throws out of `register` when the headers are already out,
     * so the 500 refusal never reaches the client.
     */
    method Register(req: Request, res: Response) returns (thrown: Option<ErrorValue>)
      requires Valid()
      modifies this, res, res.locals
      ensures thrown.Some? <==> old(res.wire.headersSent)
      ensures thrown.Some? ==> thrown.value == HeadersSentError && res.wire == old(res.wire)
      ensures !old(res.wire.headersSent) && blockIncomingConnections ==>
                res.wire == old(res.wire).AfterWriteHead(204, map[]).AfterEnd(None)
      ensures !old(res.wire.headersSent) && !blockIncomingConnections && !AcceptsEventStream(req.headers) ==>
                res.wire == old(res.wire).AfterWriteHead(400, map[]).AfterEnd(Some(AcceptRejection()))
      ensures (old(res.wire.headersSent) || blockIncomingConnections || !AcceptsEventStream(req.headers)
               || old(GetSSEIdFromResponse(res)) != null) ==>
                conns == old(conns) && order == old(order) && log == old(log) && res.locals == old(res.locals)
      ensures (!old(res.wire.headersSent) && !blockIncomingConnections && AcceptsEventStream(req.headers)
               && old(GetSSEIdFromResponse(res)) != null) ==> res.wire == old(res.wire)
      ensures (!old(res.wire.headersSent) && !blockIncomingConnections && AcceptsEventStream(req.headers)
               && old(GetSSEIdFromResponse(res)) == null) ==>
                res.locals != null && (old(res.locals) != null ==> res.locals == old(res.locals))
                && (res.locals.sse == old(if res.locals != null then res.locals.sse else None) ==>
                      res.wire == old(res.wire).AfterWriteHead(500, map[]).AfterEnd(None)
                      && conns == old(conns) && order == old(order)
                      && log == old(log) + [ErrorEvent(Wrapped(RedefineError, RegisterFailure, None))])
                && (res.locals.sse != old(if res.locals != null then res.locals.sse else None) ==>
                      GetSSEIdFromResponse(res) != null
                      && res.locals.sse.value.lastEventId == LocalsLastEventId(req.headers)
                      && res.wire == old(res.wire).AfterWriteHead(200, SseHttpResponseHeaders).AfterWrite(InitialHeartbeat)
                      && (old(res.wire).Writable() <==> GetSSEIdFromResponse(res) in conns)
                      && (old(res.wire).Writable() ==>
                            conns == old(conns)[GetSSEIdFromResponse(res) := res]
                            && order == old(order) + [GetSSEIdFromResponse(res)]
                            && log == old(log) + [Connection(GetSSEIdFromResponse(res), res.locals)]))
      ensures blockIncomingConnections == old(blockIncomingConnections) && heartbeat == old(heartbeat)
      ensures Valid()
    {
      if blockIncomingConnections {
        thrown := res.WriteHead(204, map[]);
        if thrown.None? {
          var ended := res.End(None);
        }
        return;
      }
      var rejection := ValidateRequestForSSE(req.headers, res.wire.headersSent);
      if rejection.Some? {
        thrown := res.WriteHead(rejection.value.status, map[]);
        if thrown.None? {
          var ended := res.End(Some(ErrorBody(rejection.value.message)));
        }
        return;
      }
      thrown := None;
      if GetSSEIdFromResponse(res) != null {
        return;
      }
      Admit(req, res);
    }
  }
}
