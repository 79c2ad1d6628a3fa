/**
 * packages/sse/lib/utils/maybe.js: `maybeFn(cb, defaultCb = () => null)` keeps a
 * function argument and replaces anything else with the default.
 *
 * The services receive loosely typed JavaScript arguments (a target may be an
 * SSEID, a function, an array, or anything else); `Arg` is that sum.
 */
module Maybe {
  import opened Wrappers

  /** The metadata bag (`res.locals`) that a target predicate is called with. */
  type Bag = map<string, string>

  /** Function identity: the fresh default `() => null`, or a caller's function. */
  datatype FnId = DefaultCallback | UserFn(n: nat)

  /**
   * A JavaScript function value: `id` is what `===` compares, `call` is the
   * truthiness of its result when it is called with a metadata bag.
   */
  datatype Fn = Fn(id: FnId, call: Bag -> bool)

  /** `f === g` for functions. */
  predicate Same(f: Fn, g: Fn) {
    f.id == g.id
  }

  /** Same identity and same behaviour. */
  ghost predicate Identical(f: Fn, g: Fn) {
    Same(f, g) && forall b: Bag :: f.call(b) == g.call(b)
  }

  /** A function a caller can pass: never the default `() => null` a service creates itself. */
  type CallerFn = f: Fn | f.id.UserFn? witness Fn(UserFn(0), (b: Bag) => false)

  /** A loosely typed argument: a function, an ID object, an array of IDs, or any other value. */
  datatype Arg<Id> = Func(f: CallerFn) | IdArg(id: Id) | ArrayArg(items: seq<Id>) | Other(truthy: bool)

  /** JavaScript truthiness, as `cb || target` tests it. */
  predicate Truthy<Id>(a: Arg<Id>) {
    match a
    case Other(t) => t
    case _ => true
  }

  /** The built-in default `() => null`. */
  const NullFn: Fn := Fn(DefaultCallback, (b: Bag) => false)

  /**
   * `maybeFn(cb, defaultCb)`; `defaultCb` is `None` when the caller leaves it out,
   * which selects `() => null`.
   */
  function MaybeFn<Id>(cb: Arg<Id>, defaultCb: Option<Fn>): (r: Fn)
    ensures cb.Func? ==> Identical(r, cb.f)
    ensures !cb.Func? && defaultCb.Some? ==> Identical(r, defaultCb.value)
    ensures !cb.Func? && defaultCb.None? ==> r.id == DefaultCallback && forall b: Bag :: !r.call(b)
  {
    if cb.Func? then cb.f else defaultCb.GetOr(NullFn)
  }
}
