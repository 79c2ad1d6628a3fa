/**
 * test/sse/utils/lock.js: a table of named locks used by the tests. Acquiring a
 * free lock takes it and schedules the callback on the next tick; acquiring a
 * taken one queues the callback. Releasing hands the lock to the first waiting
 * callback, or frees it when nobody waits. The scheduled callbacks are recorded
 * in order instead of being run.
 */
module TestLock {
  import opened Wrappers

  /** One `Lock` object; it never leaves the table, so it is held by value. */
  datatype Lock<Cb> = Lock(taken: bool, waitList: seq<Cb>)

  /** A lock only ever has waiters while it is taken. */
  predicate Coherent<Cb>(l: Lock<Cb>) {
    l.waitList != [] ==> l.taken
  }

  /** `_execWithLockOnResource` on one lock: the new lock and the callback put on the tick queue, if any. */
  function Acquired<Cb>(l: Lock<Cb>, cb: Cb): (Lock<Cb>, Option<Cb>) {
    if l.taken then (l.(waitList := l.waitList + [cb]), None) else (l.(taken := true), Some(cb))
  }

  /** `_releaseLock` on one lock. */
  function Released<Cb>(l: Lock<Cb>): (Lock<Cb>, Option<Cb>) {
    if !l.taken then (l, None)
    else if l.waitList == [] then (l.(taken := false), None)
    else (l.(waitList := l.waitList[1..]), Some(l.waitList[0]))
  }

  /** The lock `locks[id]` is, or the fresh one `new Lock()` makes. */
  function LockAt<Cb>(locks: map<string, Lock<Cb>>, id: string): Lock<Cb> {
    if id in locks then locks[id] else Lock(false, [])
  }

  function AsSeq<Cb>(o: Option<Cb>): seq<Cb> {
    if o.Some? then [o.value] else []
  }

  /**
   * Acquiring always leaves the lock taken; a free lock schedules the callback
   * at once and a taken one appends it to the waiters without scheduling anything.
   */
  lemma AcquireEffect<Cb>(l: Lock<Cb>, cb: Cb)
    ensures Acquired(l, cb).0.taken
    ensures !l.taken ==> Acquired(l, cb).1 == Some(cb) && Acquired(l, cb).0.waitList == l.waitList
    ensures l.taken ==> Acquired(l, cb).1.None? && Acquired(l, cb).0.waitList == l.waitList + [cb]
    ensures Coherent(l) ==> Coherent(Acquired(l, cb).0)
  {
  }

  /**
   * Releasing a free lock changes nothing; releasing a taken one frees it when
   * nobody waits, and otherwise schedules the first waiter and keeps it taken.
   */
  lemma ReleaseEffect<Cb>(l: Lock<Cb>)
    ensures !l.taken ==> Released(l) == (l, None)
    ensures l.taken && l.waitList == [] ==> Released(l) == (Lock(false, []), None)
    ensures l.taken && l.waitList != [] ==>
              Released(l).0 == Lock(true, l.waitList[1..]) && Released(l).1 == Some(l.waitList[0])
    ensures Coherent(l) ==> Coherent(Released(l).0)
  {
  }

  /** Acquiring with each callback in turn: the final lock and everything scheduled. */
  function AcquireAll<Cb>(l: Lock<Cb>, cbs: seq<Cb>): (Lock<Cb>, seq<Cb>)
    decreases |cbs|
  {
    if cbs == [] then (l, [])
    else
      var first := Acquired(l, cbs[0]);
      var rest := AcquireAll(first.0, cbs[1..]);
      (rest.0, AsSeq(first.1) + rest.1)
  }

  /** Releasing `n` times: the final lock and everything scheduled. */
  function ReleaseTimes<Cb>(l: Lock<Cb>, n: nat): (Lock<Cb>, seq<Cb>)
    decreases n
  {
    if n == 0 then (l, [])
    else
      var first := Released(l);
      var rest := ReleaseTimes(first.0, n - 1);
      (rest.0, AsSeq(first.1) + rest.1)
  }

  /** On a taken lock, every acquirer queues up behind the waiters already there. */
  lemma {:induction false} AcquireAllQueues<Cb>(l: Lock<Cb>, cbs: seq<Cb>)
    requires l.taken
    ensures AcquireAll(l, cbs) == (Lock(true, l.waitList + cbs), [])
    decreases |cbs|
  {
    if cbs == [] {
      assert l.waitList + cbs == l.waitList;
    } else {
      var l1 := Acquired(l, cbs[0]).0;
      assert l1 == Lock(true, l.waitList + [cbs[0]]);
      assert Acquired(l, cbs[0]).1 == None;
      AcquireAllQueues(l1, cbs[1..]);
      var rest := AcquireAll(l1, cbs[1..]);
      assert rest == (Lock(true, l.waitList + [cbs[0]] + cbs[1..]), []);
      assert AcquireAll(l, cbs) == (rest.0, AsSeq<Cb>(None) + rest.1);
      assert AsSeq<Cb>(None) + rest.1 == [];
      assert l.waitList + [cbs[0]] + cbs[1..] == l.waitList + cbs;
    }
  }

  /** Each release of a taken lock hands it to the next waiter, in queue order. */
  lemma {:induction false} ReleaseHandsOff<Cb>(q: seq<Cb>)
    ensures ReleaseTimes(Lock(true, q), |q|) == (Lock(true, []), q)
    decreases |q|
  {
    if q != [] {
      assert Released(Lock(true, q)) == (Lock(true, q[1..]), Some(q[0]));
      ReleaseHandsOff(q[1..]);
      assert [q[0]] + q[1..] == q;
    }
  }

  /**
   * First come, first served: while a callback holds the lock, the ones
   * acquiring it are scheduled one per release in the order they asked; the
   * release after the last of them frees the lock.
   */
  lemma FifoHandOff<Cb>(holder: Cb, cbs: seq<Cb>)
    ensures AcquireAll(Lock(false, []), [holder] + cbs).1 == [holder]
    ensures var l := AcquireAll(Lock(false, []), [holder] + cbs).0;
            && ReleaseTimes(l, |cbs|) == (Lock(true, []), cbs)
            && Released(ReleaseTimes(l, |cbs|).0) == (Lock(false, []), None)
  {
    var l0: Lock<Cb> := Lock(false, []);
    var all := [holder] + cbs;
    assert all[0] == holder && all[1..] == cbs;
    assert Acquired(l0, holder) == (Lock(true, []), Some(holder));
    var l1: Lock<Cb> := Lock(true, []);
    AcquireAllQueues(l1, cbs);
    assert l1.waitList + cbs == cbs;
    assert AcquireAll(l1, cbs) == (Lock(true, cbs), []);
    assert AcquireAll(l0, all) == (Lock(true, cbs), [holder] + []);
    ReleaseHandsOff(cbs);
  }

  /** The module-level `locks` table and the tick queue the callbacks go to. */
  class LockTable<Cb> {
    var locks: map<string, Lock<Cb>>
    /** The callbacks passed to `process.nextTick`, in order. */
    var scheduled: seq<Cb>

    ghost predicate Valid()
      reads this
    {
      forall id :: id in locks ==> Coherent(locks[id])
    }

    constructor ()
      ensures locks == map[] && scheduled == []
      ensures Valid()
    {
      locks := map[];
      scheduled := [];
    }

    /** `_execWithLockOnResource(id, cb)`: creates the lock on first use. */
    method Exec(id: string, cb: Cb)
      requires Valid()
      modifies this
      ensures locks == old(locks)[id := Acquired(LockAt(old(locks), id), cb).0]
      ensures scheduled == old(scheduled) + AsSeq(Acquired(LockAt(old(locks), id), cb).1)
      ensures Valid()
    {
      if id !in locks {
        locks := locks[id := Lock(false, [])];
      }
      var lock := locks[id];
      if lock.taken {
        locks := locks[id := lock.(waitList := lock.waitList + [cb])];
      } else {
        locks := locks[id := lock.(taken := true)];
        scheduled := scheduled + [cb];
      }
    }

    /** `_releaseLock(id)`: nothing for an unknown id. */
    method Release(id: string)
      requires Valid()
      modifies this
      ensures id !in old(locks) ==> locks == old(locks) && scheduled == old(scheduled)
      ensures id in old(locks) ==>
                locks == old(locks)[id := Released(old(locks)[id]).0]
                && scheduled == old(scheduled) + AsSeq(Released(old(locks)[id]).1)
      ensures Valid()
    {
      if id !in locks {
        return;
      }
      var lock := locks[id];
      if !lock.taken {
        return;
      }
      var waitList := lock.waitList;
      if |waitList| == 0 {
        locks := locks[id := lock.(taken := false)];
        return;
      }
      scheduled := scheduled + [waitList[0]];
      locks := locks[id := lock.(waitList := waitList[1..])];
    }
  }
}
