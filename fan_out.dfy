/**
 * What both services do to the responses a target selects: each one gets a
 * chunk written or is ended, and the caller's callback hears of the first
 * error. The helpers on sequences of IDs that the registries need live here too.
 */
module FanOut {
  import opened Wrappers
  import opened Utils
  import opened Maybe
  import opened Http

  // ---- Sequences -----------------------------------------------------------

  predicate Distinct<T(==)>(s: seq<T>) {
    forall i, j :: 0 <= i < j < |s| ==> s[i] != s[j]
  }

  /** `s` without the elements of `gone`, in the same order. */
  function Without<T(==)>(s: seq<T>, gone: set<T>): seq<T> {
    if s == [] then [] else (if s[0] in gone then [] else [s[0]]) + Without(s[1..], gone)
  }

  lemma {:induction false} WithoutMembers<T>(s: seq<T>, gone: set<T>)
    ensures forall x :: x in Without(s, gone) ==> x in s && x !in gone
    ensures forall x :: x in s && x !in gone ==> x in Without(s, gone)
  {
    if s != [] {
      WithoutMembers(s[1..], gone);
    }
  }

  lemma {:induction false} WithoutDistinct<T>(s: seq<T>, gone: set<T>)
    requires Distinct(s)
    ensures Distinct(Without(s, gone))
  {
    if s != [] {
      assert Distinct(s[1..]) by {
        forall i, j | 0 <= i < j < |s[1..]| ensures s[1..][i] != s[1..][j] {
          assert s[1..][i] == s[i + 1] && s[1..][j] == s[j + 1];
        }
      }
      WithoutDistinct(s[1..], gone);
      var rest := Without(s[1..], gone);
      WithoutMembers(s[1..], gone);
      assert s[0] !in s[1..] by {
        forall k | 0 <= k < |s[1..]| ensures s[1..][k] != s[0] {
          assert s[1..][k] == s[k + 1];
        }
      }
      assert s[0] !in rest;
    }
  }

  lemma {:induction false} WithoutTwice<T>(s: seq<T>, a: set<T>, b: set<T>)
    ensures Without(Without(s, a), b) == Without(s, a + b)
  {
    if s != [] {
      WithoutTwice(s[1..], a, b);
      var w1 := Without(s[1..], a);
      if s[0] in a {
        assert Without(s, a) == w1;
        assert Without(s, a + b) == Without(s[1..], a + b);
      } else {
        var w := Without(s, a);
        assert w == [s[0]] + w1;
        assert w[0] == s[0] && w[1..] == w1;
        assert Without(w, b) == (if s[0] in b then [] else [s[0]]) + Without(w1, b);
        assert Without(s, a + b) == (if s[0] in b then [] else [s[0]]) + Without(s[1..], a + b);
      }
    }
  }

  /** The elements of a sequence. */
  function Elems<T>(s: seq<T>): set<T> {
    set x | x in s
  }

  lemma MapMinusTwice<K, V>(m: map<K, V>, a: set<K>, b: set<K>)
    ensures (m - a) - b == m - (a + b)
  {
  }

  lemma MinusAll<K, V>(m: map<K, V>, gone: set<K>)
    requires forall k :: k in m ==> k in gone
    ensures m - gone == map[]
  {
  }

  lemma WithoutNone<T>(s: seq<T>)
    ensures Without(s, {}) == s
  {
  }

  lemma WithoutAll<T>(s: seq<T>, gone: set<T>)
    requires forall x :: x in s ==> x in gone
    ensures Without(s, gone) == []
  {
    if s != [] {
      assert s[0] in s;
      WithoutAll(s[1..], gone);
    }
  }

  lemma {:induction false} DistinctCard<T>(s: seq<T>)
    requires Distinct(s)
    ensures |set x | x in s| == |s|
  {
    if s != [] {
      var init := s[..|s| - 1];
      assert Distinct(init) by {
        forall i, j | 0 <= i < j < |init| ensures init[i] != init[j] {
          assert init[i] == s[i] && init[j] == s[j];
        }
      }
      DistinctCard(init);
      var last := s[|s| - 1];
      assert s == init + [last];
      assert last !in init by {
        forall k | 0 <= k < |init| ensures init[k] != last {
          assert init[k] == s[k];
        }
      }
      assert (set x | x in s) == (set x | x in init) + {last};
    }
  }

  // ---- Actions on responses -------------------------------------------------

  /** What is done to each targeted response: `res.write(msg, cb)`, or `_unregisterFn`. */
  datatype Action = WriteChunk(chunk: string) | EndAndRemove

  /** What the callback of `applyForTarget` receives: `cb(err)` or `cb(null, n)`. */
  datatype Outcome = Failed(err: ErrorValue) | Targeted(count: nat)

  /** `res.locals` as a target predicate sees it; no locals object reads as an empty bag. */
  function BagOf(r: Response): Bag
    reads r, r.locals
  {
    if r.locals == null then map[] else r.locals.bag
  }

  /** The error the action reports for a response in state `w`, if any. */
  function ActionError(a: Action, w: Wire): (e: Option<ErrorValue>)
    ensures a.WriteChunk? ==> (e.None? <==> w.Writable())
    ensures a.EndAndRemove? ==> (e.None? <==> w.finished || w.destroyed || !w.failing)
  {
    match a
    case WriteChunk(_) => if w.Writable() then None else Some(w.WriteError())
    case EndAndRemove =>
      if w.finished || w.destroyed then None else if w.failing then Some(w.WriteError()) else None
  }

  /** The state the action leaves a response in. */
  function Effect(a: Action, w: Wire): Wire {
    match a
    case WriteChunk(chunk) => w.AfterWrite(chunk)
    case EndAndRemove => w.AfterEnd(None)
  }

  /** The current states of some responses. */
  function WiresOf(rs: seq<Response>): (ws: seq<Wire>)
    reads rs
    ensures |ws| == |rs| && forall i :: 0 <= i < |rs| ==> ws[i] == rs[i].wire
  {
    seq(|rs|, i reads rs requires 0 <= i < |rs| => rs[i].wire)
  }

  /** The error `async.parallel` passes on: the first failing response's, in map order. */
  function FirstError(a: Action, ws: seq<Wire>): Option<ErrorValue> {
    if ws == [] then None
    else
      var e := ActionError(a, ws[0]);
      if e.Some? then e else FirstError(a, ws[1..])
  }

  /** What the caller's callback receives after the action ran on responses in states `ws`. */
  function Expected(a: Action, ws: seq<Wire>): (o: Outcome)
    ensures o.Targeted? <==> FirstError(a, ws).None?
    ensures o.Targeted? ==> o.count == |ws|
  {
    var e := FirstError(a, ws);
    if e.Some? then Failed(e.value) else Targeted(|ws|)
  }

  /** The action's effect on a response; its metadata and back-link stay as they were. */
  twostate predicate ActedOn(a: Action, r: Response)
    reads r
  {
    r.wire == Effect(a, old(r.wire)) && r.locals == old(r.locals) && r.sseId == old(r.sseId)
  }

  /**
   * `fn(res, cb)` up to its callback: `res.write(chunk, cb)`, or the part of
   * `_unregisterFn` that ends the response unless it is already finished or its
   * socket destroyed.
   */
  method Perform(a: Action, r: Response) returns (err: Option<ErrorValue>)
    modifies r
    ensures err == ActionError(a, old(r.wire))
    ensures ActedOn(a, r)
  {
    match a
    case WriteChunk(chunk) =>
      var e := r.Write(chunk);
      err := if e == null then None else Some(e.Value());
    case EndAndRemove =>
      if r.wire.finished || r.wire.destroyed {
        err := None;
      } else {
        var e := r.End(None);
        err := if e == null then None else Some(e.Value());
      }
  }

  /**
   * `async.parallel(fns, …)`: every task is started, in map order; the callback
   * receives the first error.
   */
  method PerformAll(a: Action, rs: seq<Response>) returns (first: Option<ErrorValue>)
    requires Distinct(rs)
    modifies rs
    ensures first == FirstError(a, old(WiresOf(rs)))
    ensures forall i :: 0 <= i < |rs| ==> ActedOn(a, rs[i])
  {
    ghost var ws := WiresOf(rs);
    first := None;
    var i := 0;
    assert ws[0..] == ws;
    while i < |rs|
      invariant 0 <= i <= |rs|
      invariant forall j :: 0 <= j < i ==> ActedOn(a, rs[j])
      invariant forall j :: i <= j < |rs| ==> unchanged(rs[j])
      invariant FirstError(a, ws) == if first.Some? then first else FirstError(a, ws[i..])
    {
      assert ws[i..][1..] == ws[i + 1..];
      var e := Perform(a, rs[i]);
      if first.None? {
        first := e;
      }
      i := i + 1;
    }
  }
}
