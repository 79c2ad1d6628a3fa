/**
 * lib/utils/index.js: `composeDownstream`, which chains synchronous hooks, and
 * `wrapError`, which renames an error and prefixes its message in place.
 *
 * A synchronous hook is a JavaScript function that either returns a value or
 * throws; it is modelled as `T -> Try<T>`, and a throw propagates out of the
 * composition exactly as an exception propagates out of nested calls.
 */
module Utils {
  import opened Wrappers

  /** The name and message of an Error value. */
  datatype ErrorValue = ErrorValue(name: string, message: string)

  /** Outcome of calling a JavaScript function: a returned value or a thrown error. */
  datatype Try<+T> = Returned(value: T) | Threw(error: ErrorValue)

  /** Feeds a returned value to `f`; a throw skips `f` and propagates. */
  function Then<T>(r: Try<T>, f: T -> Try<T>): Try<T> {
    match r
    case Returned(x) => f(x)
    case Threw(e) => Threw(e)
  }

  /**
   * `fns.reduce((acc, fn) => x => fn(acc(x)), x => x)`: a left fold that wraps
   * the accumulated composition in each next function.
   */
  function ComposeDownstream<T>(fns: seq<T -> Try<T>>): T -> Try<T> {
    if fns == [] then
      x => Returned(x)
    else
      var acc := ComposeDownstream(fns[..|fns| - 1]);
      var fn := fns[|fns| - 1];
      x => Then(acc(x), fn)
  }

  /** The composition of no hooks hands its argument back unchanged. */
  lemma ComposeEmpty<T>(x: T)
    ensures ComposeDownstream<T>([])(x) == Returned(x)
  {
  }

  /** Composing `a ++ b` runs all of `a`, then all of `b` on what `a` returned. */
  lemma {:induction false} ComposeAppend<T>(a: seq<T -> Try<T>>, b: seq<T -> Try<T>>, x: T)
    ensures ComposeDownstream(a + b)(x) ==
            match ComposeDownstream(a)(x)
            case Returned(y) => ComposeDownstream(b)(y)
            case Threw(e) => Threw(e)
    decreases |b|
  {
    if b == [] {
      assert a + b == a;
    } else {
      var b' := b[..|b| - 1];
      assert (a + b)[..|a + b| - 1] == a + b';
      assert (a + b)[|a + b| - 1] == b[|b| - 1];
      ComposeAppend(a, b', x);
    }
  }

  /** The leftmost hook is applied first, and a throw from it skips the rest. */
  lemma {:induction false} ComposeLeftmostFirst<T>(f: T -> Try<T>, rest: seq<T -> Try<T>>, x: T)
    ensures ComposeDownstream([f] + rest)(x) == Then(f(x), ComposeDownstream(rest))
  {
    ComposeAppend([f], rest, x);
    assert [f][..0] == [];
  }

  /** Applies plain functions left to right: `fn(…f2(f1(x)))`. */
  function ApplyInOrder<T>(fs: seq<T -> T>, x: T): T {
    if fs == [] then x else ApplyInOrder(fs[1..], fs[0](x))
  }

  /** Hooks that never throw. */
  function Lift<T>(fs: seq<T -> T>): (r: seq<T -> Try<T>>)
    ensures |r| == |fs|
  {
    seq(|fs|, i requires 0 <= i < |fs| => (y: T) => Returned(fs[i](y)))
  }

  /** For hooks that never throw, `composeDownstream([f1..fn])(x) == fn(…f1(x))`. */
  lemma {:induction false} ComposeNonThrowing<T>(fs: seq<T -> T>, x: T)
    ensures ComposeDownstream(Lift(fs))(x) == Returned(ApplyInOrder(fs, x))
    decreases |fs|
  {
    if fs != [] {
      var f := (y: T) => Returned(fs[0](y));
      assert Lift(fs) == [f] + Lift(fs[1..]);
      ComposeLeftmostFirst(f, Lift(fs[1..]), x);
      ComposeNonThrowing(fs[1..], fs[0](x));
    }
  }

  const DefaultErrorName := "SSEServiceError"

  /** A JavaScript Error object; its `name` and `message` can be reassigned. */
  class ErrorObject {
    var name: string
    var message: string

    constructor (v: ErrorValue)
      ensures name == v.name && message == v.message
    {
      name := v.name;
      message := v.message;
    }

    function Value(): ErrorValue
      reads this
    {
      ErrorValue(name, message)
    }
  }

  /** The name and message `wrapError` leaves on an error. */
  function Wrapped(e: ErrorValue, msg: string, name: Option<string>): (r: ErrorValue)
    ensures name.Some? ==> r.name == name.value
    ensures name.None? ==> r.name == DefaultErrorName
    ensures |r.message| == |msg| + 2 + |e.message| && r.message[|msg| + 2..] == e.message
  {
    ErrorValue(name.GetOr(DefaultErrorName), msg + ": " + e.message)
  }

  /**
   * `wrapError(err, msg, name = 'SSEServiceError')`: renames the error, prefixes
   * its message with `msg + ": "` and returns the very same object.
   */
  method WrapError(err: ErrorObject, msg: string, name: Option<string>) returns (r: ErrorObject)
    modifies err
    ensures r == err
    ensures err.name == name.GetOr(DefaultErrorName)
    ensures err.message == msg + ": " + old(err.message)
    ensures err.Value() == Wrapped(old(err.Value()), msg, name)
  {
    err.name := name.GetOr(DefaultErrorName);
    err.message := msg + ": " + err.message;
    r := err;
  }
}
