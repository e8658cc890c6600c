/** What every reachable state of the cross-loop lock satisfies. */
module LockSafety {
  import opened LockCore
  import opened LockProtocol

  ghost predicate IsGranted(w: World, c: Call) {
    c in w.core.state && w.core.state[c] == Granted
  }

  /** The queue is exactly the waiting calls, each once. */
  ghost predicate QueueInv(w: World) {
    && NoDup(w.core.queue)
    && forall c :: c in w.core.queue <==> c in w.core.state && w.core.state[c] == Waiting
  }

  /** Where a call may be, by its state. A live grant is in exactly one of three places:
      not yet offered to its loop, accepted by its loop, or delivered to a resolved future. */
  ghost predicate FlightInv(w: World) {
    && Wf(w)
    && w.dispatching !! w.scheduled
    && (forall c :: c in w.core.state && w.core.state[c] in {Waiting, Granted} ==> c in w.awaiting)
    && (forall c :: c in w.awaiting && w.future[c] == Resolved ==> w.core.state[c] == Granted)
    && (forall c :: c in w.core.state && w.core.state[c] in {Waiting, Acquired} ==> c !in w.dispatching + w.scheduled)
    && (forall c :: IsGranted(w, c) ==> (c in w.dispatching + w.scheduled <==> w.future[c] != Resolved))
  }

  /** Arrival order, minus withdrawn calls, is grant order followed by the queue. */
  ghost predicate FifoInv(w: World) {
    && NoDup(w.log.arrivals)
    && Keep(w.log.arrivals, w.log.withdrawn) == w.log.grants + w.core.queue
    && (forall c :: c in w.core.state ==> c in w.log.arrivals)
    && (forall c :: c in w.holders ==> c in w.log.arrivals)
    && (forall c :: c in w.log.withdrawn ==> c in w.core.state)
  }

  ghost predicate Owns(w: World, c: Call) {
    c in w.holders || IsGranted(w, c)
  }

  /** The token: with `held`, exactly one call owns the lock and it is the one grant that
      has not ended; without, nobody owns it and every grant has ended. */
  ghost predicate TokenInv(w: World, held: bool) {
    && (forall c :: c in w.holders && c in w.core.state ==> w.core.state[c] == Acquired)
    && (if held then
          && |w.log.grants| == |w.log.endings| + 1
          && w.log.grants[..|w.log.endings|] == w.log.endings
          && Owns(w, w.log.grants[|w.log.endings|])
          && forall c :: Owns(w, c) ==> c == w.log.grants[|w.log.endings|]
        else
          && w.log.grants == w.log.endings
          && forall c :: !Owns(w, c))
  }

  ghost predicate Parts(w: World, held: bool) {
    QueueInv(w) && FlightInv(w) && FifoInv(w) && TokenInv(w, held) && !w.faulted
  }

  ghost predicate Inv(w: World) {
    Parts(w, w.core.locked) && (!w.core.locked ==> w.core.queue == [])
  }

  /** Between the end of one grant and the next: locked, but nobody owns the lock. */
  ghost predicate Orphan(w: World) {
    Parts(w, false) && w.core.locked
  }

  // ------------------------------------------------------------- one hand-off

  lemma GrantedOnce(w: World)
    requires FifoInv(w)
    ensures NoDup(w.log.grants + w.core.queue)
  {
    KeepNoDup(w.log.arrivals, w.log.withdrawn);
  }

  /** The state in which the head of the queue has just been granted the lock. */
  function HeadGranted(w: World): (r: World)
    requires w.core.queue != []
  {
    var g := w.core.queue[0];
    w.(core := Core(true, w.core.queue[1..], w.core.state[g := Granted]),
       dispatching := w.dispatching + {g},
       log := w.log.(grants := w.log.grants + [g]))
  }

  lemma HeadToken(w: World)
    requires Orphan(w) && w.core.queue != []
    ensures TokenInv(HeadGranted(w), true)
  {
    hide FifoInv, FlightInv;
    var r, g := HeadGranted(w), w.core.queue[0];
    assert g in w.core.queue;
    assert r.log.grants[..|r.log.endings|] == r.log.endings;
    assert Owns(r, g);
    forall c | Owns(r, c) ensures c == g { assert c != g ==> Owns(w, c); }
  }

  lemma HeadFifo(w: World)
    requires FifoInv(w) && w.core.queue != []
    ensures w.core.queue[0] in w.core.state ==> FifoInv(HeadGranted(w))
  {
    var r := HeadGranted(w);
    assert r.log.grants + r.core.queue == w.log.grants + w.core.queue;
  }

  lemma HeadFlight(w: World)
    requires FlightInv(w) && w.core.queue != []
    requires w.core.queue[0] in w.core.state && w.core.state[w.core.queue[0]] == Waiting
    ensures FlightInv(HeadGranted(w))
  {
    hide FifoInv, TokenInv, QueueInv;
  }

  /** Handing on an orphaned lock: the oldest waiter becomes the owner, or the lock opens. */
  lemma HandOn(w: World)
    requires Orphan(w)
    ensures Inv(Issue(w, NextWaiter(w.core)))
  {
    hide FlightInv, FifoInv, TokenInv;
    if w.core.queue != [] {
      assert w.core.queue[0] in w.core.queue;
      assert Issue(w, NextWaiter(w.core)) == HeadGranted(w);
      HeadToken(w);
      HeadFifo(w);
      HeadFlight(w);
      QueueTail(w, w.core.queue[0]);
    } else {
      Unlock(w);
    }
  }

  lemma Unlock(w: World)
    requires Orphan(w) && w.core.queue == []
    ensures Inv(w.(core := w.core.(locked := false)))
  {
    var r := w.(core := w.core.(locked := false));
    forall c ensures !Owns(r, c) { assert !Owns(w, c); }
  }

  lemma QueueTail(w: World, g: Call)
    requires QueueInv(w) && w.core.queue != [] && g == w.core.queue[0]
    ensures QueueInv(w.(core := Core(true, w.core.queue[1..], w.core.state[g := Granted])))
  {
    var q := w.core.queue;
    assert q == [g] + q[1..];
    assert g !in q[1..];
  }

  // ------------------------------------------------------------- single steps

  lemma NoDupSnoc(s: seq<Call>, c: Call)
    requires NoDup(s) && c !in s
    ensures NoDup(s + [c])
  {
  }

  lemma AcquireFree(w: World, c: Call)
    requires Inv(w) && c !in w.log.arrivals && !w.core.locked
    ensures Inv(Apply(w, Acquire(c)))
  {
    var r := Apply(w, Acquire(c));
    assert FifoInv(r) by {
      NoDupSnoc(w.log.arrivals, c);
      KeepSnoc(w.log.arrivals, c, w.log.withdrawn);
    }
    assert r.log.grants[..|r.log.endings|] == r.log.endings;
    assert Owns(r, c);
    forall d | Owns(r, d) ensures d == c { assert d != c ==> Owns(w, d); }
  }

  /** A call that finds the lock taken, at the end of the queue. */
  function Queued(w: World, c: Call): (r: World) {
    w.(core := w.core.(queue := w.core.queue + [c], state := w.core.state[c := Waiting]),
       future := w.future[c := Pending],
       awaiting := w.awaiting + {c},
       log := w.log.(arrivals := w.log.arrivals + [c]))
  }

  lemma QueuedOrder(w: World, c: Call)
    requires QueueInv(w) && FifoInv(w) && c !in w.log.arrivals
    ensures QueueInv(Queued(w, c)) && FifoInv(Queued(w, c))
  {
    NoDupSnoc(w.log.arrivals, c);
    KeepSnoc(w.log.arrivals, c, w.log.withdrawn);
    NoDupSnoc(w.core.queue, c);
  }

  lemma QueuedFlight(w: World, c: Call)
    requires FlightInv(w) && c !in w.core.state
    ensures FlightInv(Queued(w, c))
  {
  }

  lemma AcquireQueued(w: World, c: Call)
    requires Inv(w) && c !in w.log.arrivals && w.core.locked
    ensures Inv(Apply(w, Acquire(c)))
  {
    QueuedOrder(w, c);
    QueuedFlight(w, c);
    QueuedToken(w, c);
    hide FlightInv, QueueInv, FifoInv, TokenInv;
  }

  lemma QueuedToken(w: World, c: Call)
    requires TokenInv(w, w.core.locked) && c !in w.core.state && c !in w.holders
    ensures TokenInv(Queued(w, c), w.core.locked)
  {
    var r := Queued(w, c);
    assert forall d :: Owns(w, d) ==> Owns(r, d);
    forall d | Owns(r, d) ensures Owns(w, d) { }
  }

  lemma ReleaseStep(w: World, c: Call)
    requires Inv(w) && c in w.holders
    ensures w.core.locked && Inv(Apply(w, Release(c)))
  {
    var mid := End(w.(holders := w.holders - {c}), c);
    ReleaseToken(w, c);
    assert FlightInv(mid) && FifoInv(mid) && QueueInv(mid);
    hide Inv, FlightInv, FifoInv, TokenInv, QueueInv;
    HandOn(mid);
  }

  lemma ReleaseToken(w: World, c: Call)
    requires Inv(w) && c in w.holders
    ensures w.core.locked && TokenInv(End(w.(holders := w.holders - {c}), c), false)
  {
    hide FlightInv, FifoInv, QueueInv;
    assert Owns(w, c);
    var mid := End(w.(holders := w.holders - {c}), c);
    assert mid.log.grants == mid.log.endings;
    forall d ensures !Owns(mid, d) { assert Owns(mid, d) ==> Owns(w, d); }
  }

  /** What the state looks like once the owning waiter `c` is marked cancelled. */
  function Surrendered(w: World, c: Call): (r: World) {
    End(w.(core := w.core.(state := w.core.state[c := Cancelled])), c)
  }

  /** Ending a live grant leaves an orphaned lock, wherever the grant was in flight. */
  lemma Surrender(w: World, c: Call, v: World)
    requires Inv(w) && IsGranted(w, c)
    requires v.core == w.core && v.future == w.future && v.holders == w.holders && v.log == w.log && !v.faulted
    requires v.awaiting == w.awaiting || v.awaiting == w.awaiting - {c}
    requires v.dispatching == w.dispatching || v.dispatching == w.dispatching - {c}
    requires v.scheduled == w.scheduled || v.scheduled == w.scheduled - {c}
    requires c in v.awaiting ==> w.future[c] != Resolved
    ensures w.core.locked && Orphan(Surrendered(v, c))
    ensures Inv(Issue(End(v, c), PassOn(w.core, c)))
  {
    var mid := Surrendered(v, c);
    SurrenderToken(w, c, v);
    SurrenderFlight(w, c, v);
    SurrenderFifo(w, c, v);
    assert QueueInv(mid);
    hide Inv, FlightInv, FifoInv, TokenInv, QueueInv;
    HandOn(mid);
    assert Issue(End(v, c), PassOn(w.core, c)) == Issue(mid, NextWaiter(mid.core));
  }

  lemma SurrenderToken(w: World, c: Call, v: World)
    requires Inv(w) && IsGranted(w, c)
    requires v.core == w.core && v.holders == w.holders && v.log == w.log
    ensures w.core.locked && TokenInv(Surrendered(v, c), false)
  {
    hide FlightInv, FifoInv, QueueInv;
    assert Owns(w, c);
    var mid := Surrendered(v, c);
    assert mid.log.grants == mid.log.endings;
    forall d ensures !Owns(mid, d) { assert Owns(mid, d) ==> Owns(w, d); }
  }

  lemma SurrenderFifo(w: World, c: Call, v: World)
    requires FifoInv(w) && IsGranted(w, c)
    requires v.core == w.core && v.holders == w.holders && v.log == w.log
    ensures FifoInv(Surrendered(v, c))
  {
  }

  lemma SurrenderFlight(w: World, c: Call, v: World)
    requires FlightInv(w) && IsGranted(w, c)
    requires v.core == w.core && v.future == w.future
    requires v.awaiting == w.awaiting || v.awaiting == w.awaiting - {c}
    requires v.dispatching == w.dispatching || v.dispatching == w.dispatching - {c}
    requires v.scheduled == w.scheduled || v.scheduled == w.scheduled - {c}
    requires c in v.awaiting ==> w.future[c] != Resolved
    ensures FlightInv(Surrendered(v, c))
  {
  }

  /** A waiting call that gives up, taken out of position `k` of the queue. */
  function Withdrawn(w: World, c: Call, k: nat): (r: World)
    requires k < |w.core.queue|
  {
    w.(core := w.core.(queue := w.core.queue[..k] + w.core.queue[k + 1..], state := w.core.state[c := Cancelled]),
       awaiting := w.awaiting - {c},
       log := w.log.(withdrawn := w.log.withdrawn + {c}))
  }

  lemma WithdrawnFifo(w: World, c: Call, k: nat)
    requires FifoInv(w) && k < |w.core.queue| && w.core.queue[k] == c && c in w.core.state
    ensures FifoInv(Withdrawn(w, c, k))
  {
    var q, g := w.core.queue, w.log.grants;
    KeepWithout(w.log.arrivals, c, w.log.withdrawn, |g| + k);
    assert (g + q)[..|g| + k] + (g + q)[|g| + k + 1..] == g + (q[..k] + q[k + 1..]);
  }

  lemma WithdrawnQueue(w: World, c: Call, k: nat)
    requires QueueInv(w) && k < |w.core.queue| && w.core.queue[k] == c
    ensures QueueInv(Withdrawn(w, c, k))
  {
    QueueWithout(w.core.queue, k);
  }

  lemma WithdrawnFlight(w: World, c: Call, k: nat)
    requires FlightInv(w) && k < |w.core.queue| && c in w.core.state && w.core.state[c] == Waiting
    ensures FlightInv(Withdrawn(w, c, k))
  {
    forall x | x in Withdrawn(w, c, k).core.queue ensures x in w.core.queue { }
  }

  lemma WithdrawnToken(w: World, c: Call, k: nat)
    requires TokenInv(w, w.core.locked) && k < |w.core.queue| && c in w.core.state && w.core.state[c] == Waiting
    ensures TokenInv(Withdrawn(w, c, k), w.core.locked)
  {
    SameOwners(w, Withdrawn(w, c, k));
  }

  lemma WithdrawIsRemoval(w: World, c: Call, k: nat)
    requires Wf(w) && c in w.awaiting && w.core.state[c] == Waiting
    requires NoDup(w.core.queue) && k < |w.core.queue| && w.core.queue[k] == c
    ensures Apply(w, Interrupt(c)) == Withdrawn(w, c, k)
  {
    RemoveFirstAt(w.core.queue, c, k);
  }

  lemma WithdrawStep(w: World, c: Call)
    requires Inv(w) && c in w.awaiting && w.core.state[c] == Waiting
    ensures Inv(Apply(w, Interrupt(c)))
  {
    hide FifoInv, TokenInv;
    assert c in w.core.queue;
    var k :| 0 <= k < |w.core.queue| && w.core.queue[k] == c;
    WithdrawIsRemoval(w, c, k);
    WithdrawnQueue(w, c, k);
    WithdrawnFlight(w, c, k);
    WithdrawnFifo(w, c, k);
    WithdrawnToken(w, c, k);
    hide QueueInv, FlightInv;
  }

  lemma QueueWithout(q: seq<Call>, k: nat)
    requires NoDup(q) && k < |q|
    ensures var r := q[..k] + q[k + 1..]; NoDup(r) && forall c :: c in r <==> c in q && c != q[k]
  {
    var r := q[..k] + q[k + 1..];
    forall c | c in q && c != q[k] ensures c in r {
      var i :| 0 <= i < |q| && q[i] == c;
      assert if i < k then r[i] == c else r[i - 1] == c;
    }
  }

  /** A cancelled or finished call may drop out of any place it is still listed in. */
  lemma DropStale(w: World, c: Call, v: World)
    requires Inv(w) && c in w.core.state && w.core.state[c] in {Acquired, Cancelled}
    requires v.core == w.core && v.future == w.future && v.holders == w.holders && v.log == w.log && !v.faulted
    requires v.awaiting == w.awaiting || v.awaiting == w.awaiting - {c}
    requires v.dispatching == w.dispatching || v.dispatching == w.dispatching - {c}
    requires v.scheduled == w.scheduled || v.scheduled == w.scheduled - {c}
    ensures Inv(v)
  {
    SameOwners(w, v);
  }

  lemma SameOwners(w: World, v: World)
    requires TokenInv(w, w.core.locked) && v.core.locked == w.core.locked
    requires v.log.grants == w.log.grants && v.log.endings == w.log.endings
    requires forall d :: d in v.holders && d in v.core.state ==> v.core.state[d] == Acquired
    requires forall d :: Owns(v, d) <==> Owns(w, d)
    ensures TokenInv(v, v.core.locked)
  {
  }

  lemma InterruptStep(w: World, c: Call)
    requires Inv(w) && c in w.awaiting
    ensures Inv(Apply(w, Interrupt(c)))
  {
    var left := w.(awaiting := w.awaiting - {c});
    match w.core.state[c]
    case Waiting => WithdrawStep(w, c);
    case Granted => Surrender(w, c, left);
    case _ => DropStale(w, c, left);
  }

  lemma RejectStep(w: World, c: Call)
    requires Inv(w) && c in w.dispatching
    ensures Inv(Apply(w, Reject(c)))
  {
    hide QueueInv, FifoInv, TokenInv;
    var left := w.(dispatching := w.dispatching - {c});
    if IsGranted(w, c) { Surrender(w, c, left); } else { DropStale(w, c, left); }
  }

  /** The delivery callback resolves the future of a live grant. */
  lemma ResolveStep(w: World, c: Call)
    requires Inv(w) && c in w.scheduled && IsGranted(w, c) && w.future[c] != FutureCancelled
    ensures w.future[c] == Pending && Inv(w.(scheduled := w.scheduled - {c}, future := w.future[c := Resolved]))
  {
    hide FifoInv, QueueInv, TokenInv;
    var r := w.(scheduled := w.scheduled - {c}, future := w.future[c := Resolved]);
    assert TokenInv(r, r.core.locked) && FifoInv(r) && QueueInv(r) by { ResolveOrder(w, c); }
  }

  lemma ResolveOrder(w: World, c: Call)
    requires FifoInv(w) && QueueInv(w) && TokenInv(w, w.core.locked)
    ensures var r := w.(scheduled := w.scheduled - {c}, future := w.future[c := Resolved]);
            FifoInv(r) && QueueInv(r) && TokenInv(r, r.core.locked)
  {
    SameOwners(w, w.(scheduled := w.scheduled - {c}, future := w.future[c := Resolved]));
  }

  lemma DeliverStep(w: World, c: Call)
    requires Inv(w) && c in w.scheduled
    ensures Inv(Apply(w, Deliver(c)))
  {
    hide QueueInv, FifoInv, TokenInv;
    var ran := w.(scheduled := w.scheduled - {c});
    if !IsGranted(w, c) {
      DropStale(w, c, ran);
    } else if w.future[c] == FutureCancelled {
      Surrender(w, c, ran);
    } else {
      ResolveStep(w, c);
    }
  }

  lemma ResumeStep(w: World, c: Call)
    requires Inv(w) && c in w.awaiting && w.future[c] == Resolved
    ensures Inv(Apply(w, Resume(c)))
  {
    hide QueueInv, FifoInv, TokenInv;
    ResumeOrder(w, c);
    ResumeFlight(w, c);
    hide FlightInv;
  }

  /** The granted call `c` becomes a holder. */
  function Resumed(w: World, c: Call): (r: World) {
    w.(awaiting := w.awaiting - {c}, core := w.core.(state := w.core.state[c := Acquired]), holders := w.holders + {c})
  }

  lemma ResumeFlight(w: World, c: Call)
    requires FlightInv(w) && IsGranted(w, c) && w.future[c] == Resolved
    ensures FlightInv(Resumed(w, c))
  {
  }

  lemma ResumeOrder(w: World, c: Call)
    requires QueueInv(w) && TokenInv(w, w.core.locked) && FifoInv(w) && IsGranted(w, c)
    ensures var r := Resumed(w, c); QueueInv(r) && TokenInv(r, r.core.locked) && FifoInv(r)
  {
    SameOwners(w, Resumed(w, c));
  }

  lemma QuietStep(w: World, s: Step)
    requires Inv(w) && Enabled(w, s) && (s.Accept? || s.CancelFuture?)
    ensures Inv(Apply(w, s))
  {
    var r := Apply(w, s);
    SameOwners(w, r);
  }

  /** Every enabled step of every kind keeps the invariant. */
  lemma StepKeepsInv(w: World, s: Step)
    requires Inv(w) && Enabled(w, s)
    ensures Inv(Apply(w, s))
  {
    match s
    case Acquire(c) => if w.core.locked { AcquireQueued(w, c); } else { AcquireFree(w, c); }
    case Release(c) => ReleaseStep(w, c);
    case Interrupt(c) => InterruptStep(w, c);
    case Reject(c) => RejectStep(w, c);
    case Deliver(c) => DeliverStep(w, c);
    case Resume(c) => ResumeStep(w, c);
    case _ => QuietStep(w, s);
  }
}
