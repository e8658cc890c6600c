/** Every interleaving of the cross-loop lock.

A `World` is the lock plus everything in flight around it: suspended acquire calls, their
futures, grants not yet offered to a loop, delivery callbacks a loop has accepted, and
current holders. Each guarded block of the source is one atomic step; everything that can
happen between two guarded blocks (cancellation, a closed loop, another thread) is a
separate step, so a run is any order of them. The `log` only records history. */
module LockProtocol {
  import opened Options
  import opened LockCore

  type Call = nat

  datatype FutureState = Pending | Resolved | FutureCancelled

  /** `arrivals`: acquire calls in arrival order. `grants`: calls given the lock, in order.
      `endings`: grants that ended, in order. `withdrawn`: calls cancelled while still waiting. */
  datatype Log = Log(arrivals: seq<Call>, grants: seq<Call>, endings: seq<Call>, withdrawn: set<Call>)

  datatype World = World(
    core: Core<Call>,
    future: map<Call, FutureState>,
    awaiting: set<Call>,
    holders: set<Call>,
    dispatching: set<Call>,
    scheduled: set<Call>,
    faulted: bool,
    log: Log)

  datatype Step =
    | Acquire(call: Call)      // acquire up to its return or its await
    | Release(call: Call)      // guarded block of release, called by a holder
    | CancelFuture(call: Call) // the waiting task is cancelled; its future is cancelled at once
    | Interrupt(call: Call)    // the await raises; _cancel_waiter runs
    | Accept(call: Call)       // call_soon_threadsafe succeeds
    | Reject(call: Call)       // call_soon_threadsafe raises; _abandon_grant runs
    | Deliver(call: Call)      // the accepted callback runs _deliver
    | Resume(call: Call)       // the await returns; acquire checks its grant

  function Init(): (r: World) {
    World(Core(false, [], map[]), map[], {}, {}, {}, {}, false, Log([], [], [], {}))
  }

  /** Every call named anywhere is a known waiter; reachable states always satisfy it. */
  predicate Wf(w: World) {
    && Known(w.core)
    && w.core.state.Keys == w.future.Keys
    && w.awaiting <= w.core.state.Keys
    && w.dispatching <= w.core.state.Keys
    && w.scheduled <= w.core.state.Keys
  }

  predicate Enabled(w: World, s: Step)
    requires Wf(w)
  {
    match s
    case Acquire(c) => c !in w.log.arrivals
    case Release(c) => c in w.holders
    case CancelFuture(c) => c in w.awaiting && w.future[c] == Pending
    case Interrupt(c) => c in w.awaiting
    case Accept(c) => c in w.dispatching
    case Reject(c) => c in w.dispatching
    case Deliver(c) => c in w.scheduled
    case Resume(c) => c in w.awaiting && w.future[c] == Resolved
  }

  /** A freshly granted waiter is now in the hands of the thread that will dispatch it. */
  function Issue(w: World, r: (Core<Call>, Option<Call>)): (result: World) {
    match r.1
    case None => w.(core := r.0)
    case Some(g) => w.(core := r.0, dispatching := w.dispatching + {g},
                       log := w.log.(grants := w.log.grants + [g]))
  }

  function End(w: World, c: Call): (r: World) {
    w.(log := w.log.(endings := w.log.endings + [c]))
  }

  function Apply(w: World, s: Step): (r: World)
    requires Wf(w) && Enabled(w, s)
  {
    match s
    case Acquire(c) =>
      var core := Enter(w.core, c);
      var log := w.log.(arrivals := w.log.arrivals + [c]);
      if !w.core.locked then
        w.(core := core, holders := w.holders + {c}, log := log.(grants := log.grants + [c]))
      else
        w.(core := core, future := w.future[c := Pending], awaiting := w.awaiting + {c}, log := log)
    case Release(c) =>
      if !w.core.locked then w.(faulted := true)
      else Issue(End(w.(holders := w.holders - {c}), c), NextWaiter(w.core))
    case CancelFuture(c) =>
      w.(future := w.future[c := FutureCancelled])
    case Interrupt(c) =>
      var before := w.core.state[c];
      var left := w.(awaiting := w.awaiting - {c});
      var logged := if before == Waiting then left.(log := left.log.(withdrawn := left.log.withdrawn + {c}))
                    else if before == Granted then End(left, c) else left;
      Issue(logged, CancelWaiter(w.core, c))
    case Accept(c) =>
      w.(dispatching := w.dispatching - {c}, scheduled := w.scheduled + {c})
    case Reject(c) =>
      var left := w.(dispatching := w.dispatching - {c});
      Issue(if w.core.state[c] == Granted then End(left, c) else left, AbandonGrant(w.core, c))
    case Deliver(c) =>
      var ran := w.(scheduled := w.scheduled - {c});
      if w.core.state[c] != Granted then ran
      else if w.future[c] == FutureCancelled then Issue(End(ran, c), PassOn(w.core, c))
      else if w.future[c] == Resolved then ran.(faulted := true) // set_result on a finished future
      else ran.(future := w.future[c := Resolved])
    case Resume(c) =>
      var left := w.(awaiting := w.awaiting - {c});
      if w.core.state[c] != Granted then left.(faulted := true) // "handoff was lost"
      else left.(core := w.core.(state := w.core.state[c := Acquired]), holders := w.holders + {c})
  }

  predicate IsRun(run: seq<World>, steps: seq<Step>) {
    && |run| == |steps| + 1
    && run[0] == Init()
    && forall i :: 0 <= i < |steps| ==> Wf(run[i]) && Enabled(run[i], steps[i]) && run[i + 1] == Apply(run[i], steps[i])
  }

  // ---------------------------------------------------------------- history

  /** `s` without the members of `out`. */
  function Keep(s: seq<Call>, out: set<Call>): (r: seq<Call>)
  {
    if s == [] then []
    else Keep(s[..|s| - 1], out) + if s[|s| - 1] in out then [] else [s[|s| - 1]]
  }

  lemma {:induction false} KeepMembers(s: seq<Call>, out: set<Call>)
    ensures forall c :: c in Keep(s, out) <==> c in s && c !in out
  {
    if s != [] {
      KeepMembers(s[..|s| - 1], out);
      assert s == s[..|s| - 1] + [s[|s| - 1]];
    }
  }

  lemma {:induction false} KeepNoDup(s: seq<Call>, out: set<Call>)
    requires NoDup(s)
    ensures NoDup(Keep(s, out))
  {
    if s != [] {
      KeepNoDup(s[..|s| - 1], out);
      KeepMembers(s[..|s| - 1], out);
    }
  }

  lemma KeepSnoc(s: seq<Call>, c: Call, out: set<Call>)
    ensures Keep(s + [c], out) == Keep(s, out) + if c in out then [] else [c]
  {
    assert (s + [c])[..|s|] == s;
  }

  /** Withdrawing one more call takes out exactly its own position. */
  lemma {:induction false} KeepWithout(s: seq<Call>, c: Call, out: set<Call>, k: nat)
    requires NoDup(s) && k < |Keep(s, out)| && Keep(s, out)[k] == c
    ensures Keep(s, out + {c}) == Keep(s, out)[..k] + Keep(s, out)[k + 1..]
  {
    var init, last := s[..|s| - 1], s[|s| - 1];
    var kept := Keep(init, out);
    assert Keep(s, out) == kept + if last in out then [] else [last];
    if k < |kept| {
      KeepMembers(init, out);
      assert kept[k] in kept && last != c;
      KeepWithout(init, c, out, k);
      WithoutSnoc(kept, if last in out then [] else [last], k);
    } else {
      assert last == c && c !in init;
      KeepAbsent(init, c, out);
    }
  }

  lemma WithoutSnoc(a: seq<Call>, b: seq<Call>, k: nat)
    requires k < |a|
    ensures (a + b)[..k] + (a + b)[k + 1..] == a[..k] + a[k + 1..] + b
  {
  }

  lemma {:induction false} KeepAbsent(s: seq<Call>, c: Call, out: set<Call>)
    requires c !in s
    ensures Keep(s, out + {c}) == Keep(s, out)
  {
    if s != [] { KeepAbsent(s[..|s| - 1], c, out); }
  }
}
