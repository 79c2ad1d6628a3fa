/**
 * How both generations of the service read the `(target, cb)` pair of
 * `send`, `unregister` and `resetEventId` (lib/sse-service-private-methods.js:42-53,
 * packages/sse/lib/sse-service.js:191-202): the callback is `maybeFn(cb || target)`,
 * and the target survives only as one of the service's own IDs or as a predicate
 * other than that callback; anything else, an array of IDs included, means
 * every connection.
 */
module Targets {
  import opened Wrappers
  import opened Maybe

  /** The target after normalisation. */
  datatype Resolved<Id> =
    | OneId(id: Id)          // an `instanceof SSEID` of this service
    | Matching(pred: Fn)     // `target(res.locals)` selects the connections
    | Everyone               // `target === null`

  /** `cb || target`: JavaScript's `||` picks the left operand when it is truthy. */
  function OrElse<Id>(cb: Arg<Id>, target: Arg<Id>): Arg<Id> {
    if Truthy(cb) then cb else target
  }

  /** The callback `maybeFn(cb || target)`: the caller's function, else `() => null`. */
  function Callback<Id>(target: Arg<Id>, cb: Arg<Id>): Fn {
    MaybeFn(OrElse(cb, target), None)
  }

  /**
   * The target that survives `maybeFn(cb || target)`; `isOwn` is
   * `instanceof internal(this).SSEID`.
   */
  function Normalise<Id>(target: Arg<Id>, cb: Arg<Id>, isOwn: Id -> bool): (r: Resolved<Id>)
    ensures r.OneId? <==> target.IdArg? && isOwn(target.id)
    ensures r.OneId? ==> r.id == target.id
    ensures r.Matching? <==> target.Func? && !Same(target.f, Callback(target, cb))
    ensures r.Matching? ==> r.pred == target.f
  {
    var callback := Callback(target, cb);
    match target
    case IdArg(id) => if isOwn(id) then OneId(id) else Everyone
    case Func(f) => if Same(f, callback) then Everyone else Matching(f)
    case _ => Everyone
  }

  /**
   * The callback: a function `cb` wins; with a falsy `cb`, a function target
   * becomes the callback; otherwise the default `() => null`.
   */
  lemma CallbackChoice<Id>(target: Arg<Id>, cb: Arg<Id>)
    ensures cb.Func? ==> Identical(Callback(target, cb), cb.f)
    ensures !Truthy(cb) && target.Func? ==> Identical(Callback(target, cb), target.f)
    ensures Truthy(cb) && !cb.Func? ==> Callback(target, cb).id == DefaultCallback
    ensures !Truthy(cb) && !target.Func? ==> Callback(target, cb).id == DefaultCallback
  {
  }

  /** A predicate passed without a callback is the callback, and the target is every connection. */
  lemma LonePredicateIsCallback<Id>(f: CallerFn, cb: Arg<Id>, isOwn: Id -> bool)
    requires !Truthy(cb)
    ensures Normalise(Func(f), cb, isOwn) == Everyone
    ensures Identical(Callback(Func(f), cb), f)
  {
  }

  /** A predicate with a separate function callback selects connections. */
  lemma PredicateWithCallback<Id>(f: CallerFn, g: CallerFn, isOwn: Id -> bool)
    requires !Same(f, g)
    ensures Normalise(Func(f), Func(g), isOwn) == Matching(f)
    ensures Identical(Callback<Id>(Func(f), Func(g)), g)
  {
  }

  /**
   * Arrays, IDs of another service and non-function values all mean every
   * connection: the array branch of lib/sse-service-private-methods.js:65-74 is
   * never taken.
   */
  lemma OnlyOwnIdsAndPredicatesSurvive<Id>(target: Arg<Id>, cb: Arg<Id>, isOwn: Id -> bool)
    requires target.ArrayArg? || target.Other? || (target.IdArg? && !isOwn(target.id))
    ensures Normalise(target, cb, isOwn) == Everyone
  {
  }
}
