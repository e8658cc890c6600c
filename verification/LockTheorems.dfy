/** Safety, order and progress of the cross-loop lock over whole runs. */
module LockTheorems {
  import opened Options
  import opened LockCore
  import opened LockProtocol
  import opened LockSafety

  lemma EmptyInv()
    ensures Inv(Init())
  {
  }

  lemma {:induction false} RunInv(run: seq<World>, steps: seq<Step>, i: nat)
    requires IsRun(run, steps) && i < |run|
    ensures Inv(run[i])
  {
    hide Inv, Apply, Enabled, Wf;
    EmptyInv();
    if i > 0 {
      RunInv(run, steps, i - 1);
      StepKeepsInv(run[i - 1], steps[i - 1]);
    }
  }

  function GrantedCalls(w: World): (r: set<Call>) {
    set c | c in w.core.state && w.core.state[c] == Granted
  }

  /** Token invariant: in every state of every run the lock is locked exactly when there is
      exactly one owner, a holder or a live grant; so two calls never hold it together. */
  lemma OneOwner(run: seq<World>, steps: seq<Step>, i: nat)
    requires IsRun(run, steps) && i < |run|
    ensures var w := run[i];
            && w.holders !! GrantedCalls(w)
            && |w.holders| + |GrantedCalls(w)| == if w.core.locked then 1 else 0
  {
    RunInv(run, steps, i);
    var w := run[i];
    var owners := w.holders + GrantedCalls(w);
    assert forall c :: c in owners <==> Owns(w, c);
    if w.core.locked {
      assert owners == {w.log.grants[|w.log.endings|]};
    } else {
      assert owners == {};
    }
    assert |owners| == |w.holders| + |GrantedCalls(w)|;
  }

  /** The three errors of the source (lost hand-off, double resolution of a future, release
      of an unlocked lock) are unreachable: whatever is enabled next, it does not fault. */
  lemma NoFault(run: seq<World>, steps: seq<Step>, i: nat)
    requires IsRun(run, steps) && i < |run|
    ensures !run[i].faulted
    ensures forall c :: c in run[i].holders ==> run[i].core.locked
    ensures Wf(run[i])
    ensures forall c :: c in run[i].awaiting && run[i].future[c] == Resolved ==> run[i].core.state[c] == Granted
    ensures forall c :: c in run[i].scheduled && run[i].core.state[c] == Granted ==> run[i].future[c] != Resolved
  {
    RunInv(run, steps, i);
    forall c | c in run[i].holders ensures run[i].core.locked { assert Owns(run[i], c); }
  }

  /** Grants happen in arrival order among the calls not withdrawn first, nobody overtakes
      the queue, and each grant ends once, before the next one is made. */
  lemma FifoHandoff(run: seq<World>, steps: seq<Step>, i: nat)
    requires IsRun(run, steps) && i < |run|
    ensures var w := run[i];
            && Keep(w.log.arrivals, w.log.withdrawn) == w.log.grants + w.core.queue
            && NoDup(w.log.grants)
            && w.log.endings <= w.log.grants
            && |w.log.grants| == |w.log.endings| + (if w.core.locked then 1 else 0)
            && (!w.core.locked ==> w.core.queue == [])
            && (forall c :: c in w.core.queue ==> c in w.core.state && w.core.state[c] == Waiting)
  {
    RunInv(run, steps, i);
    GrantedOnce(run[i]);
    var w := run[i];
    assert NoDup(w.log.grants) by {
      forall a, b | 0 <= a < b < |w.log.grants| ensures w.log.grants[a] != w.log.grants[b] {
        assert (w.log.grants + w.core.queue)[a] != (w.log.grants + w.core.queue)[b];
      }
    }
  }

  /** Every component of `v` continues that of `u`. */
  ghost predicate Extends(u: Log, v: Log) {
    u.arrivals <= v.arrivals && u.grants <= v.grants && u.endings <= v.endings && u.withdrawn <= v.withdrawn
  }

  lemma IssueExtends(w: World, r: (Core<Call>, Option<Call>))
    ensures Extends(w.log, Issue(w, r).log)
    ensures forall c :: Extends(w.log, Issue(End(w, c), r).log)
  {
  }

  lemma StepExtendsLog(w: World, s: Step)
    requires Wf(w) && Enabled(w, s)
    ensures Extends(w.log, Apply(w, s).log)
  {
    hide Issue, End, Known;
    match s
    case Release(c) => IssueExtends(w.(holders := w.holders - {c}), NextWaiter(w.core));
    case Reject(c) => IssueExtends(w.(dispatching := w.dispatching - {c}), AbandonGrant(w.core, c));
    case Deliver(c) => IssueExtends(w.(scheduled := w.scheduled - {c}), PassOn(w.core, c));
    case Interrupt(c) =>
      var left := w.(awaiting := w.awaiting - {c});
      IssueExtends(left, CancelWaiter(w.core, c));
      IssueExtends(left.(log := left.log.(withdrawn := left.log.withdrawn + {c})), CancelWaiter(w.core, c));
    case _ =>
  }

  /** History is only ever extended, so the order stated at one state is never rewritten. */
  lemma {:induction false} HistoryGrows(run: seq<World>, steps: seq<Step>, i: nat, j: nat)
    requires IsRun(run, steps) && i <= j < |run|
    ensures run[i].log.arrivals <= run[j].log.arrivals
    ensures run[i].log.grants <= run[j].log.grants
    ensures run[i].log.endings <= run[j].log.endings
    ensures run[i].log.withdrawn <= run[j].log.withdrawn
    decreases j - i
  {
    if i < j {
      StepExtendsLog(run[i], steps[i]);
      HistoryGrows(run, steps, i + 1, j);
    }
  }

  // ---------------------------------------------------------------- progress

  /** The lock is between two holders. */
  ghost predicate InFlight(w: World) {
    w.core.locked && w.holders == {} && |w.log.endings| < |w.log.grants|
  }

  /** The one grant that has not ended. */
  ghost function Owner(w: World): (r: Call)
    requires |w.log.endings| < |w.log.grants|
  {
    w.log.grants[|w.log.endings|]
  }

  /** Steps that a granted call still needs before it holds the lock. */
  ghost function Stage(w: World, c: Call): (r: nat) {
    if c in w.dispatching then 3 else if c in w.scheduled then 2 else 1
  }

  ghost function Remaining(w: World): (r: nat) {
    if InFlight(w) then 3 * |w.core.queue| + Stage(w, Owner(w)) else 0
  }

  ghost predicate MovesToken(w: World, s: Step) {
    InFlight(w) && s.call == Owner(w) && (s.Accept? || s.Reject? || s.Deliver? || s.Resume? || s.Interrupt?)
  }

  /** While any call waits, someone holds the lock or a grant is in flight with its next step enabled. */
  lemma WaitersAreServed(w: World, c: Call)
    requires Inv(w) && c in w.core.state && w.core.state[c] == Waiting
    ensures w.core.locked
    ensures w.holders != {} ||
            (IsGranted(w, Owner(w)) &&
             (Enabled(w, Accept(Owner(w))) || Enabled(w, Deliver(Owner(w))) || Enabled(w, Resume(Owner(w)))))
  {
    assert c in w.core.queue;
    if w.holders == {} {
      assert Owns(w, Owner(w));
    }
  }

  lemma OwnerStep(w: World, s: Step)
    requires Inv(w) && Enabled(w, s) && MovesToken(w, s) && Inv(Apply(w, s))
    ensures Remaining(Apply(w, s)) < Remaining(w)
  {
    hide FifoInv;
    var r := Apply(w, s);
    assert Owns(w, Owner(w));
    if InFlight(r) && r.log.grants != w.log.grants {
      assert Owner(r) == r.log.grants[|r.log.grants| - 1];
      assert |r.core.queue| < |w.core.queue|;
    }
  }

  lemma WithdrawalShortens(w: World, c: Call)
    requires Inv(w) && InFlight(w) && c in w.awaiting && w.core.state[c] == Waiting
    ensures Remaining(Apply(w, Interrupt(c))) <= Remaining(w)
  {
    hide FifoInv, TokenInv;
    assert c in w.core.queue;
    var k :| 0 <= k < |w.core.queue| && w.core.queue[k] == c;
    WithdrawIsRemoval(w, c, k);
  }

  lemma OtherStep(w: World, s: Step)
    requires Inv(w) && InFlight(w) && Enabled(w, s) && !MovesToken(w, s) && Inv(Apply(w, s))
    ensures Remaining(Apply(w, s)) <= Remaining(w) + if s.Acquire? then 3 else 0
  {
    hide FifoInv;
    assert Owns(w, Owner(w));
    if s.Interrupt? && w.core.state[s.call] == Waiting {
      WithdrawalShortens(w, s.call);
    } else if !s.Acquire? && !s.Accept? && !s.CancelFuture? && !s.Release? {
      assert IsGranted(w, s.call) ==> Owns(w, s.call);
    }
  }

  /** Acquire calls made in steps `a..b`. */
  function Arrivals(steps: seq<Step>, a: nat, b: nat): (r: nat)
    requires a <= b <= |steps|
    decreases b
  {
    if a == b then 0 else Arrivals(steps, a, b - 1) + if steps[b - 1].Acquire? then 1 else 0
  }

  /** Steps among `a..b` that move the token. */
  ghost function TokenMoves(run: seq<World>, steps: seq<Step>, a: nat, b: nat): (r: nat)
    requires a <= b <= |steps| < |run|
    decreases b
  {
    if a == b then 0 else TokenMoves(run, steps, a, b - 1) + if MovesToken(run[b - 1], steps[b - 1]) then 1 else 0
  }

  /** Bounded hand-off: whatever else happens, a lock between holders reaches a holder or
      opens within three token moves per queued call, plus three per call that arrives
      meanwhile, however many loops are closed and however many calls give up. */
  lemma {:induction false} HandoffIsBounded(run: seq<World>, steps: seq<Step>, a: nat, b: nat)
    requires IsRun(run, steps) && a <= b <= |steps|
    requires forall i :: a <= i < b ==> InFlight(run[i])
    ensures TokenMoves(run, steps, a, b) + Remaining(run[b]) <= Remaining(run[a]) + 3 * Arrivals(steps, a, b)
    decreases b
  {
    hide Inv, Apply, Enabled, Remaining, MovesToken, InFlight;
    if a < b {
      HandoffIsBounded(run, steps, a, b - 1);
      RunInv(run, steps, b - 1);
      RunInv(run, steps, b);
      if MovesToken(run[b - 1], steps[b - 1]) {
        OwnerStep(run[b - 1], steps[b - 1]);
      } else {
        OtherStep(run[b - 1], steps[b - 1]);
      }
    }
  }

  // ------------------------------------------------------------------- a whole hand-off

  /** Two calls, the second arriving while the first holds the lock: released, the lock is granted to the second, whose
  loop accepts and runs the callback, and whose acquire then returns. */
  lemma SecondCallGetsTheLock()
    ensures exists run: seq<World> ::
      var steps := [Acquire(0), Acquire(1), Release(0), Accept(1), Deliver(1), Resume(1)];
      IsRun(run, steps) && run[1].holders == {0} && run[2].awaiting == {1} && run[6].holders == {1} && run[6].core.locked
  {
    var steps := [Acquire(0), Acquire(1), Release(0), Accept(1), Deliver(1), Resume(1)];
    var a := Init();
    var b := Apply(a, Acquire(0));
    var c := Apply(b, Acquire(1));
    AfterSecondArrival(a, b, c);
    var d := Apply(c, Release(0));
    AfterRelease(c, d);
    var e := Apply(d, Accept(1));
    var f := Apply(e, Deliver(1));
    var g := Apply(f, Resume(1));
    var run := [a, b, c, d, e, f, g];
    hide Apply, NextWaiter;
    assert IsRun(run, steps);
  }

  lemma AfterSecondArrival(a: World, b: World, c: World)
    requires a == Init() && b == Apply(a, Acquire(0)) && Wf(b) && Enabled(b, Acquire(1)) && c == Apply(b, Acquire(1))
    ensures c.core == Core(true, [1], map[1 := Waiting]) && c.holders == {0} && c.awaiting == {1} && c.future == map[1 := Pending]
    ensures c.dispatching == {} && c.scheduled == {} && Wf(c)
  {
  }

  lemma AfterRelease(c: World, d: World)
    requires c.core == Core(true, [1], map[1 := Waiting]) && c.holders == {0} && Wf(c) && d == Apply(c, Release(0))
    ensures d.core == Core(true, [], map[1 := Granted]) && d.holders == {} && d.dispatching == c.dispatching + {1}
    ensures d.future == c.future && d.awaiting == c.awaiting && d.scheduled == c.scheduled
  {
    NextHits(c.core);
  }
}
