/** The lock as the source keeps it: an object whose guarded blocks update its flag, its
queue and the state of heap-allocated waiters, each proved against `LockCore`. */
module CrossLoopLock {
  import opened Options
  import opened LockCore
  import opened LockProtocol

  /** An event loop, as far as the lock can see it: once closed it refuses callbacks. */
  class EventLoop {
    var closed: bool

    constructor ()
      ensures !closed
    {
      closed := false;
    }
  }

  class LockWaiter {
    const loop: EventLoop
    var future: FutureState
    var state: WaiterState

    constructor (loop: EventLoop)
      ensures this.loop == loop && future == Pending && state == Waiting
    {
      this.loop, future, state := loop, Pending, Waiting;
    }
  }

  datatype Delivery = Stale | HandedOn(next: Option<LockWaiter>) | Completed | InvalidState

  class CrossLoopAsyncLock {
    var locked: bool
    var waiters: seq<LockWaiter>
    ghost var known: set<LockWaiter>

    ghost predicate Valid()
      reads this
    {
      forall w :: w in waiters ==> w in known
    }

    ghost function View(): (c: Core<LockWaiter>)
      reads this, known
      requires Valid()
      ensures Known(c) && c.state.Keys == known
    {
      Core(locked, waiters, map w | w in known :: w.state)
    }

    constructor ()
      ensures Valid() && View() == Core(false, [], map[]) && known == {}
    {
      locked, waiters, known := false, [], {};
    }

    /** First guarded block of `acquire`; None means the lock was taken without waiting. */
    method Enter(loop: EventLoop) returns (waiter: Option<LockWaiter>)
      requires Valid()
      modifies this
      ensures Valid()
      ensures waiter.None? <==> !old(locked)
      ensures waiter.None? ==> known == old(known) && View() == old(View()).(locked := true)
      ensures waiter.Some? ==> fresh(waiter.value) && known == old(known) + {waiter.value}
      ensures waiter.Some? ==> waiter.value.loop == loop && waiter.value.future == Pending
      ensures waiter.Some? ==> View() == LockCore.Enter(old(View()), waiter.value)
    {
      if !locked {
        locked := true;
        return None;
      }
      var w := new LockWaiter(loop);
      waiters := waiters + [w];
      known := known + {w};
      waiter := Some(w);
    }

    /** Last guarded block of `acquire`; false stands for "handoff was lost". */
    method FinishAcquire(w: LockWaiter) returns (ok: bool)
      requires Valid() && w in known
      modifies w`state
      ensures ok <==> old(w.state) == Granted
      ensures View() == if ok then old(View()).(state := old(View()).state[w := Acquired]) else old(View())
    {
      ok := w.state == Granted;
      if ok { w.state := Acquired; }
    }

    method NextWaiterLocked() returns (next: Option<LockWaiter>)
      requires Valid()
      modifies this`locked, this`waiters, known`state
      ensures Valid()
      ensures (View(), next) == NextWaiter(old(View()))
    {
      hide NextWaiter;
      ghost var first := View();
      while waiters != []
        invariant Valid() && locked == first.locked
        invariant View() == first.(queue := waiters)
        invariant NextWaiter(View()) == NextWaiter(first)
        decreases |waiters|
      {
        ghost var c := View();
        var waiter := waiters[0];
        assert waiter in waiters;
        waiters := waiters[1..];
        assert View() == c.(queue := c.queue[1..]);
        if waiter.state == Waiting {
          NextHits(c);
          waiter.state := Granted;
          assert View().state == c.state[waiter := Granted];
          return Some(waiter);
        }
        NextSkips(c);
      }
      NextRunsOut(View());
      locked := false;
      next := None;
      assert View() == first.(queue := [], locked := false);
    }

    /** Guarded block of `release`; false stands for "release unlocked". */
    method ReleaseLocked() returns (ok: bool, next: Option<LockWaiter>)
      requires Valid()
      modifies this`locked, this`waiters, known`state
      ensures Valid()
      ensures ok <==> old(locked)
      ensures (View(), next) == if ok then NextWaiter(old(View())) else (old(View()), None)
    {
      ok, next := locked, None;
      if ok { next := NextWaiterLocked(); }
    }

    method CancelWaiter(w: LockWaiter) returns (next: Option<LockWaiter>)
      requires Valid() && w in known
      modifies this`locked, this`waiters, known`state
      ensures Valid()
      ensures (View(), next) == LockCore.CancelWaiter(old(View()), w)
    {
      next := None;
      if w.state == Waiting {
        w.state := Cancelled;
        waiters := RemoveFirst(waiters, w);
        assert View().state == old(View()).state[w := Cancelled];
        return;
      }
      if w.state != Granted { return; }
      w.state := Cancelled;
      assert View() == old(View()).(state := old(View()).state[w := Cancelled]);
      next := NextWaiterLocked();
    }

    method AbandonGrant(w: LockWaiter) returns (next: Option<LockWaiter>)
      requires Valid() && w in known
      modifies this`locked, this`waiters, known`state
      ensures Valid()
      ensures (View(), next) == LockCore.AbandonGrant(old(View()), w)
    {
      next := None;
      if w.state == Granted {
        w.state := Cancelled;
        assert View() == old(View()).(state := old(View()).state[w := Cancelled]);
        next := NextWaiterLocked();
      }
    }

    method Deliver(w: LockWaiter) returns (outcome: Delivery)
      requires Valid() && w in known
      modifies this`locked, this`waiters, known`state, w`future
      ensures Valid()
      ensures outcome.Stale? <==> old(w.state) != Granted
      ensures outcome.HandedOn? <==> old(w.state) == Granted && old(w.future) == FutureCancelled
      ensures outcome.InvalidState? <==> old(w.state) == Granted && old(w.future) == Resolved
      ensures if outcome.HandedOn? then (View(), outcome.next) == PassOn(old(View()), w) else View() == old(View())
      ensures w.future == if outcome.Completed? then Resolved else old(w.future)
    {
      if w.state != Granted { return Stale; }
      if w.future == FutureCancelled {
        w.state := Cancelled;
        assert View() == old(View()).(state := old(View()).state[w := Cancelled]);
        var next := NextWaiterLocked();
        return HandedOn(next);
      }
      if w.future == Resolved { return InvalidState; }
      w.future := Resolved;
      assert View() == old(View());
      outcome := Completed;
    }

    /** `_dispatch`: a refusal stands for the RuntimeError of `call_soon_threadsafe`, and the
        loop of `accepted` has taken the delivery callback. Terminates because every refusal
        consumes a queued waiter. */
    method Dispatch(first: Option<LockWaiter>, ghost closed: set<LockWaiter>) returns (accepted: Option<LockWaiter>)
      requires Valid() && (first.Some? ==> first.value in known)
      requires forall w :: w in known ==> (w in closed <==> w.loop.closed)
      modifies this`locked, this`waiters, known`state
      ensures Valid()
      ensures (View(), accepted) == DispatchAll(old(View()), first, closed)
      ensures accepted.Some? ==> accepted.value in known && !accepted.value.loop.closed
    {
      ghost var start := View();
      accepted := first;
      while accepted.Some?
        invariant Valid() && (accepted.Some? ==> accepted.value in known)
        invariant DispatchAll(View(), accepted, closed) == DispatchAll(start, first, closed)
        decreases |waiters|, accepted.Some?
      {
        if !accepted.value.loop.closed { return; }
        DispatchSkips(View(), accepted.value, closed);
        accepted := AbandonGrant(accepted.value);
      }
    }
  }
}
