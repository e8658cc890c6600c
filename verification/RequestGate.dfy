/** The reader/exclusive request gate of one MCP stdio provider and the response limit it guards.

All code runs on one event loop under one condition variable, so everything between two
suspensions is one atomic step. A suspended request re-checks its predicate only after it
has been notified. */
module RequestGate {
  import opened Options

  type Id = nat

  const MAX_READERS := 4

  datatype Kind = Reader | Exclusive

  /** `Waiting` has asked for the slot; `Inside` holds it; `Leaving` has finished its exchange and
      reset the response limit but not yet given the slot back; `Lost` never will. */
  datatype Phase = Waiting(notified: bool) | Inside(exchanging: bool) | Leaving | Lost | Gone

  datatype Request = Request(kind: Kind, phase: Phase, limit: nat)

  /** The provider's four fields. */
  datatype Gate = Gate(exclusiveActive: bool, exclusiveWaiters: nat, activeReaders: nat, responseLimit: nat)

  datatype World = World(gate: Gate, requests: map<Id, Request>, admissions: seq<Admission>)

  /** History: who was admitted, and whether an exclusive request was waiting just then. */
  datatype Admission = Admission(kind: Kind, exclusiveWaiting: bool)

  // ------------------------------------------------ the gate's own operations

  predicate ReaderMayEnter(g: Gate) {
    !g.exclusiveActive && g.exclusiveWaiters == 0 && g.activeReaders < MAX_READERS
  }

  predicate ExclusiveMayEnter(g: Gate) {
    !g.exclusiveActive && g.activeReaders == 0
  }

  predicate MayEnter(g: Gate, k: Kind) {
    if k.Reader? then ReaderMayEnter(g) else ExclusiveMayEnter(g)
  }

  /** Counters after an admission; an exclusive request has counted itself as waiting before. */
  function Admit(g: Gate, k: Kind): (r: Gate) {
    if k.Reader? then g.(activeReaders := g.activeReaders + 1)
    else g.(exclusiveWaiters := if g.exclusiveWaiters > 0 then g.exclusiveWaiters - 1 else 0, exclusiveActive := true)
  }

  function Leave(g: Gate, k: Kind): (r: Gate) {
    if k.Reader? then g.(activeReaders := if g.activeReaders > 0 then g.activeReaders - 1 else 0)
    else g.(exclusiveActive := false)
  }

  // ------------------------------------------------------------------ steps

  datatype Step =
    | Arrive(id: Id, kind: Kind, limit: nat)
    | Wake(id: Id)         // a notified waiter re-checks its predicate
    | CancelWait(id: Id)   // the wait is cancelled or times out
    | Exchange(id: Id)     // publish the response limit, write the request
    | EndExchange(id: Id)  // response, error or cancellation: reset the limit
    | LeaveSlot(id: Id)    // the slot's finally block
    | LoseSlot(id: Id)     // cancelled while that block waits for the condition lock

  predicate HasPhase(w: World, id: Id, p: Phase) {
    id in w.requests && w.requests[id].phase == p
  }

  /** Readers never ask for more than the configured limit (`_request` refuses it). */
  predicate LimitAllowed(kind: Kind, limit: nat, configured: nat) {
    if kind.Reader? then limit == configured else configured <= limit
  }

  predicate Enabled(w: World, configured: nat, s: Step) {
    match s
    case Arrive(id, kind, limit) => id !in w.requests && LimitAllowed(kind, limit, configured)
    case Wake(id) => HasPhase(w, id, Waiting(true))
    case CancelWait(id) => id in w.requests && w.requests[id].phase.Waiting?
    case Exchange(id) => HasPhase(w, id, Inside(false))
    case EndExchange(id) => HasPhase(w, id, Inside(true))
    case LeaveSlot(id) => HasPhase(w, id, Leaving)
    case LoseSlot(id) => HasPhase(w, id, Leaving)
  }

  /** `notify_all`: every suspended request will re-check its predicate. */
  function NotifyAll(requests: map<Id, Request>): (r: map<Id, Request>)
    ensures r.Keys == requests.Keys
  {
    map id | id in requests ::
      if requests[id].phase.Waiting? then requests[id].(phase := Waiting(true)) else requests[id]
  }

  function SetPhase(w: World, id: Id, p: Phase): (r: World)
    requires id in w.requests
  {
    w.(requests := w.requests[id := w.requests[id].(phase := p)])
  }

  /** The request passes its predicate check, or (re-)suspends. */
  function TryEnter(w: World, id: Id): (r: World)
    requires id in w.requests
  {
    var k := w.requests[id].kind;
    if MayEnter(w.gate, k) then
      var entered := SetPhase(w, id, Inside(false));
      var gate := Admit(w.gate, k);
      var log := w.admissions + [Admission(k, Waiters(entered.requests, Exclusive) != {})];
      if k.Reader? then entered.(gate := gate, admissions := log)
      else entered.(gate := gate, requests := NotifyAll(entered.requests), admissions := log)
    else SetPhase(w, id, Waiting(false))
  }

  function Apply(w: World, configured: nat, s: Step): (r: World)
    requires Enabled(w, configured, s)
  {
    match s
    case Arrive(id, kind, limit) =>
      var gate := if kind.Exclusive? then w.gate.(exclusiveWaiters := w.gate.exclusiveWaiters + 1) else w.gate;
      TryEnter(w.(gate := gate, requests := w.requests[id := Request(kind, Waiting(true), limit)]), id)
    case Wake(id) => TryEnter(w, id)
    case CancelWait(id) =>
      if w.requests[id].kind.Reader? then SetPhase(w, id, Gone)
      else
        var gone := SetPhase(w, id, Gone);
        gone.(gate := w.gate.(exclusiveWaiters := if w.gate.exclusiveWaiters > 0 then w.gate.exclusiveWaiters - 1 else 0),
              requests := NotifyAll(gone.requests))
    case Exchange(id) => SetPhase(w, id, Inside(true)).(gate := w.gate.(responseLimit := w.requests[id].limit))
    case EndExchange(id) => SetPhase(w, id, Leaving).(gate := w.gate.(responseLimit := configured))
    case LeaveSlot(id) =>
      var gone := SetPhase(w, id, Gone);
      gone.(gate := Leave(w.gate, w.requests[id].kind), requests := NotifyAll(gone.requests))
    case LoseSlot(id) => SetPhase(w, id, Lost)
  }

  function Init(configured: nat): (r: World) {
    World(Gate(false, 0, 0, configured), map[], [])
  }

  predicate IsRun(run: seq<World>, steps: seq<Step>, configured: nat) {
    && |run| == |steps| + 1
    && run[0] == Init(configured)
    && forall i :: 0 <= i < |steps| ==> Enabled(run[i], configured, steps[i]) && run[i + 1] == Apply(run[i], configured, steps[i])
  }

  // -------------------------------------------------------------- invariant

  predicate InSlot(r: Request) {
    r.phase.Inside? || r.phase.Leaving? || r.phase.Lost?
  }

  function Slots(requests: map<Id, Request>, k: Kind): (r: set<Id>) {
    set id | id in requests && requests[id].kind == k && InSlot(requests[id])
  }

  function Waiters(requests: map<Id, Request>, k: Kind): (r: set<Id>) {
    set id | id in requests && requests[id].kind == k && requests[id].phase.Waiting?
  }

  ghost predicate Counts(w: World) {
    && |Slots(w.requests, Reader)| == w.gate.activeReaders <= MAX_READERS
    && |Slots(w.requests, Exclusive)| == (if w.gate.exclusiveActive then 1 else 0)
    && |Waiters(w.requests, Exclusive)| == w.gate.exclusiveWaiters
    && !(w.gate.exclusiveActive && w.gate.activeReaders > 0)
  }

  /** The limit in force is the configured one, except while one exclusive request is
      exchanging; then it is exactly that request's. */
  ghost predicate LimitInv(w: World, configured: nat) {
    && (forall id :: id in w.requests ==> LimitAllowed(w.requests[id].kind, w.requests[id].limit, configured))
    && (forall id :: HasPhase(w, id, Inside(true)) ==> w.gate.responseLimit == w.requests[id].limit)
    && ((forall id :: !HasPhase(w, id, Inside(true))) ==> w.gate.responseLimit == configured)
  }

  /** No lost wake-up: a suspended request that has not been notified may not enter anyway. */
  ghost predicate WakeInv(w: World) {
    forall id :: HasPhase(w, id, Waiting(false)) ==> !MayEnter(w.gate, w.requests[id].kind)
  }

  ghost predicate Inv(w: World, configured: nat) {
    && Counts(w) && LimitInv(w, configured) && WakeInv(w)
    && forall i :: 0 <= i < |w.admissions| ==> w.admissions[i].kind.Reader? ==> !w.admissions[i].exclusiveWaiting
  }

  // ----------------------------------------------------------------- proofs

  lemma NotifyKeepsCounts(requests: map<Id, Request>, k: Kind)
    ensures Slots(NotifyAll(requests), k) == Slots(requests, k) && Waiters(NotifyAll(requests), k) == Waiters(requests, k)
  {
  }

  function One(b: bool): (r: nat) {
    if b then 1 else 0
  }

  function Put(s: set<Id>, id: Id, present: bool): (r: set<Id>) {
    if present then s + {id} else s - {id}
  }

  lemma PutSize(s: set<Id>, id: Id, present: bool)
    ensures |Put(s, id, present)| == |s| - One(id in s) + One(present)
  {
    if present && id in s { assert s + {id} == s; }
    if !present && id !in s { assert s - {id} == s; }
  }

  /** Writing one request changes only its own membership. */
  lemma SlotsPut(requests: map<Id, Request>, id: Id, r: Request, k: Kind)
    ensures Slots(requests[id := r], k) == Put(Slots(requests, k), id, r.kind == k && InSlot(r))
  {
  }

  lemma WaitersPut(requests: map<Id, Request>, id: Id, r: Request, k: Kind)
    ensures Waiters(requests[id := r], k) == Put(Waiters(requests, k), id, r.kind == k && r.phase.Waiting?)
  {
  }

  lemma PutCounts(requests: map<Id, Request>, id: Id, r: Request, k: Kind)
    ensures var after := requests[id := r];
            && |Slots(after, k)| == |Slots(requests, k)| - One(id in Slots(requests, k)) + One(r.kind == k && InSlot(r))
            && |Waiters(after, k)| == |Waiters(requests, k)| - One(id in Waiters(requests, k)) + One(r.kind == k && r.phase.Waiting?)
            && Slots(NotifyAll(after), k) == Slots(after, k) && Waiters(NotifyAll(after), k) == Waiters(after, k)
  {
    hide Slots, Waiters, NotifyAll, Put;
    SlotsPut(requests, id, r, k);
    WaitersPut(requests, id, r, k);
    PutSize(Slots(requests, k), id, r.kind == k && InSlot(r));
    PutSize(Waiters(requests, k), id, r.kind == k && r.phase.Waiting?);
    NotifyKeepsCounts(requests[id := r], k);
  }

  lemma Moves(w: World, id: Id, p: Phase, k: Kind)
    requires id in w.requests
    ensures var before, r := w.requests[id], SetPhase(w, id, p).requests;
            && |Slots(r, k)| == |Slots(w.requests, k)| - One(before.kind == k && InSlot(before)) + One(before.kind == k && InSlot(before.(phase := p)))
            && |Waiters(r, k)| == |Waiters(w.requests, k)| - One(before.kind == k && before.phase.Waiting?) + One(before.kind == k && p.Waiting?)
            && Slots(NotifyAll(r), k) == Slots(r, k) && Waiters(NotifyAll(r), k) == Waiters(r, k)
  {
    hide NotifyAll;
    PutCounts(w.requests, id, w.requests[id].(phase := p), k);
  }

  lemma EnterCounts(w: World, id: Id)
    requires Counts(w) && HasPhase(w, id, Waiting(true)) && MayEnter(w.gate, w.requests[id].kind)
    ensures Counts(TryEnter(w, id))
  {
    hide Slots, Waiters, NotifyAll;
    Moves(w, id, Inside(false), Reader);
    Moves(w, id, Inside(false), Exclusive);
  }

  lemma SuspendCounts(w: World, id: Id)
    requires Counts(w) && HasPhase(w, id, Waiting(true))
    ensures Counts(SetPhase(w, id, Waiting(false)))
  {
    hide Slots, Waiters;
    Moves(w, id, Waiting(false), Reader);
    Moves(w, id, Waiting(false), Exclusive);
  }

  lemma AdmissionKeeps(w: World, id: Id, configured: nat)
    requires Inv(w, configured) && HasPhase(w, id, Waiting(true)) && MayEnter(w.gate, w.requests[id].kind)
    ensures Inv(TryEnter(w, id), configured)
  {
    hide Counts, Waiters;
    EnterCounts(w, id);
    var r := TryEnter(w, id);
    if w.requests[id].kind.Reader? { NobodyWaits(w, id); }
    assert forall x :: HasPhase(r, x, Inside(true)) <==> HasPhase(w, x, Inside(true));
  }

  lemma SuspensionKeeps(w: World, id: Id, configured: nat)
    requires Inv(w, configured) && HasPhase(w, id, Waiting(true)) && !MayEnter(w.gate, w.requests[id].kind)
    ensures Inv(TryEnter(w, id), configured)
  {
    hide Counts, NotifyAll;
    SuspendCounts(w, id);
    var r := TryEnter(w, id);
    assert forall x :: HasPhase(r, x, Inside(true)) <==> HasPhase(w, x, Inside(true));
  }

  lemma TryEnterKeeps(w: World, id: Id, configured: nat)
    requires Inv(w, configured) && HasPhase(w, id, Waiting(true))
    ensures Inv(TryEnter(w, id), configured)
  {
    hide Inv, TryEnter;
    if MayEnter(w.gate, w.requests[id].kind) { AdmissionKeeps(w, id, configured); } else { SuspensionKeeps(w, id, configured); }
  }

  /** A reader that may enter leaves no exclusive request waiting behind it. */
  lemma NobodyWaits(w: World, id: Id)
    requires Counts(w) && id in w.requests && w.requests[id].kind.Reader?
    ensures ReaderMayEnter(w.gate) ==> Waiters(SetPhase(w, id, Inside(false)).requests, Exclusive) == {}
  {
    hide Slots, NotifyAll;
    Moves(w, id, Inside(false), Exclusive);
  }

  lemma ArriveCounts(w: World, id: Id, r: Request)
    requires Counts(w) && id !in w.requests && r.phase.Waiting?
    ensures Counts(w.(gate := if r.kind.Exclusive? then w.gate.(exclusiveWaiters := w.gate.exclusiveWaiters + 1) else w.gate,
                      requests := w.requests[id := r]))
  {
    hide Slots, Waiters;
    AbsentFromSets(w.requests, id);
    PutCounts(w.requests, id, r, Reader);
    PutCounts(w.requests, id, r, Exclusive);
  }

  lemma AbsentFromSets(requests: map<Id, Request>, id: Id)
    requires id !in requests
    ensures forall k :: id !in Slots(requests, k) && id !in Waiters(requests, k)
  {
  }

  lemma ArriveKeeps(w: World, configured: nat, id: Id, kind: Kind, limit: nat)
    requires Inv(w, configured) && Enabled(w, configured, Arrive(id, kind, limit))
    ensures Inv(Apply(w, configured, Arrive(id, kind, limit)), configured)
  {
    var gate := if kind.Exclusive? then w.gate.(exclusiveWaiters := w.gate.exclusiveWaiters + 1) else w.gate;
    var m := w.(gate := gate, requests := w.requests[id := Request(kind, Waiting(true), limit)]);
    assert Counts(m) by { ArriveCounts(w, id, Request(kind, Waiting(true), limit)); }
    assert Inv(m, configured) by {
      hide Counts;
      assert forall x :: HasPhase(m, x, Inside(true)) <==> HasPhase(w, x, Inside(true));
      assert forall x :: HasPhase(m, x, Waiting(false)) <==> HasPhase(w, x, Waiting(false));
    }
    TryEnterKeeps(m, id, configured);
  }

  lemma CancelCounts(w: World, configured: nat, id: Id)
    requires Counts(w) && Enabled(w, configured, CancelWait(id))
    ensures Counts(Apply(w, configured, CancelWait(id)))
  {
    hide Slots, NotifyAll;
    Moves(w, id, Gone, Reader);
    Moves(w, id, Gone, Exclusive);
    assert w.requests[id].kind.Exclusive? ==> id in Waiters(w.requests, Exclusive);
  }

  lemma CancelKeeps(w: World, configured: nat, id: Id)
    requires Inv(w, configured) && Enabled(w, configured, CancelWait(id))
    ensures Inv(Apply(w, configured, CancelWait(id)), configured)
  {
    hide Counts;
    CancelCounts(w, configured, id);
    var r := Apply(w, configured, CancelWait(id));
    assert forall x :: HasPhase(r, x, Inside(true)) <==> HasPhase(w, x, Inside(true));
  }

  /** Requests in the slot: an exclusive one is alone. */
  lemma Alone(w: World, id: Id, other: Id)
    requires Counts(w) && id in w.requests && other in w.requests && w.requests[id].kind.Exclusive?
    requires InSlot(w.requests[id]) && InSlot(w.requests[other])
    ensures id == other
  {
    assert id in Slots(w.requests, Exclusive);
    assert w.gate.exclusiveActive;
    assert other !in Slots(w.requests, Reader);
    Single(Slots(w.requests, Exclusive), id, other);
  }

  lemma Single(s: set<Id>, a: Id, b: Id)
    requires |s| <= 1 && a in s && b in s
    ensures a == b
  {
    assert |s - {a}| == 0;
  }

  lemma ExchangeKeeps(w: World, configured: nat, id: Id)
    requires Inv(w, configured) && Enabled(w, configured, Exchange(id))
    ensures Inv(Apply(w, configured, Exchange(id)), configured)
  {
    var r := Apply(w, configured, Exchange(id));
    assert Counts(r) by { StayingCounts(w, id, Inside(true)); }
    forall x | HasPhase(r, x, Inside(true)) ensures r.gate.responseLimit == r.requests[x].limit {
      if x != id {
        if w.requests[x].kind.Exclusive? { Alone(w, x, id); }
        if w.requests[id].kind.Exclusive? { Alone(w, id, x); }
      }
    }
    assert HasPhase(r, id, Inside(true));
    assert forall x :: HasPhase(r, x, Waiting(false)) <==> HasPhase(w, x, Waiting(false));
  }

  lemma StayingCounts(w: World, id: Id, p: Phase)
    requires Counts(w) && id in w.requests && InSlot(w.requests[id]) && InSlot(w.requests[id].(phase := p)) && !p.Waiting?
    ensures Counts(SetPhase(w, id, p))
  {
    var r := SetPhase(w, id, p);
    assert forall k :: Slots(r.requests, k) == Slots(w.requests, k);
    assert forall k :: Waiters(r.requests, k) == Waiters(w.requests, k);
  }

  lemma EndExchangeKeeps(w: World, configured: nat, id: Id)
    requires Inv(w, configured) && Enabled(w, configured, EndExchange(id))
    ensures Inv(Apply(w, configured, EndExchange(id)), configured)
  {
    var r := Apply(w, configured, EndExchange(id));
    assert Counts(r) by { StayingCounts(w, id, Leaving); }
    forall x | HasPhase(r, x, Inside(true)) ensures r.gate.responseLimit == r.requests[x].limit {
      assert HasPhase(w, x, Inside(true)) && x != id;
      if w.requests[x].kind.Exclusive? { Alone(w, x, id); }
    }
    assert forall x :: HasPhase(r, x, Waiting(false)) <==> HasPhase(w, x, Waiting(false));
  }

  lemma LeaveCounts(w: World, configured: nat, id: Id)
    requires Counts(w) && Enabled(w, configured, LeaveSlot(id))
    ensures Counts(Apply(w, configured, LeaveSlot(id)))
  {
    hide Waiters, NotifyAll;
    Moves(w, id, Gone, Reader);
    Moves(w, id, Gone, Exclusive);
    assert id in Slots(w.requests, w.requests[id].kind);
  }

  lemma LeaveKeeps(w: World, configured: nat, id: Id)
    requires Inv(w, configured) && Enabled(w, configured, LeaveSlot(id))
    ensures Inv(Apply(w, configured, LeaveSlot(id)), configured)
  {
    hide Counts;
    LeaveCounts(w, configured, id);
    var r := Apply(w, configured, LeaveSlot(id));
    assert forall x :: HasPhase(r, x, Inside(true)) <==> HasPhase(w, x, Inside(true));
  }

  lemma LoseKeeps(w: World, configured: nat, id: Id)
    requires Inv(w, configured) && Enabled(w, configured, LoseSlot(id))
    ensures Inv(Apply(w, configured, LoseSlot(id)), configured)
  {
    hide Counts;
    var r := Apply(w, configured, LoseSlot(id));
    StayingCounts(w, id, Lost);
    assert forall x :: HasPhase(r, x, Inside(true)) <==> HasPhase(w, x, Inside(true));
  }

  lemma StepKeepsInv(w: World, configured: nat, s: Step)
    requires Inv(w, configured) && Enabled(w, configured, s)
    ensures Inv(Apply(w, configured, s), configured)
  {
    hide Inv, Apply, Enabled;
    StepCases(w, configured, s);
  }

  lemma StepCases(w: World, configured: nat, s: Step)
    requires Inv(w, configured) && Enabled(w, configured, s)
    ensures Inv(Apply(w, configured, s), configured)
  {
    hide Inv;
    match s
    case Arrive(id, kind, limit) => ArriveKeeps(w, configured, id, kind, limit);
    case Wake(id) => TryEnterKeeps(w, id, configured);
    case CancelWait(id) => CancelKeeps(w, configured, id);
    case Exchange(id) => ExchangeKeeps(w, configured, id);
    case EndExchange(id) => EndExchangeKeeps(w, configured, id);
    case LeaveSlot(id) => LeaveKeeps(w, configured, id);
    case LoseSlot(id) => LoseKeeps(w, configured, id);
  }

  lemma {:induction false} RunInv(run: seq<World>, steps: seq<Step>, configured: nat, i: nat)
    requires IsRun(run, steps, configured) && i < |run|
    ensures Inv(run[i], configured)
  {
    if i > 0 {
      RunInv(run, steps, configured, i - 1);
      hide Inv, Apply, Enabled;
      StepKeepsInv(run[i - 1], configured, steps[i - 1]);
    } else {
      assert Slots(run[0].requests, Reader) == {} && Slots(run[0].requests, Exclusive) == {} && Waiters(run[0].requests, Exclusive) == {};
    }
  }

  // --------------------------------------------------------------- theorems

  /** An exclusive request never shares the slot, and at most four readers are inside. */
  lemma ExclusiveNeverOverlaps(run: seq<World>, steps: seq<Step>, configured: nat, i: nat, id: Id, other: Id)
    requires IsRun(run, steps, configured) && i < |run|
    requires id in run[i].requests && other in run[i].requests && id != other
    requires InSlot(run[i].requests[id]) && InSlot(run[i].requests[other])
    ensures run[i].requests[id].kind.Reader? && run[i].requests[other].kind.Reader?
    ensures |Slots(run[i].requests, Reader)| <= MAX_READERS
  {
    RunInv(run, steps, configured, i);
    if run[i].requests[id].kind.Exclusive? { Alone(run[i], id, other); }
    if run[i].requests[other].kind.Exclusive? { Alone(run[i], other, id); }
  }

  /** No reader was ever admitted while an exclusive request was waiting, however waiters
      came and were cancelled. */
  lemma ReadersNeverOvertake(run: seq<World>, steps: seq<Step>, configured: nat, i: nat)
    requires IsRun(run, steps, configured) && i < |run|
    ensures forall n :: 0 <= n < |run[i].admissions| && run[i].admissions[n].kind.Reader? ==> !run[i].admissions[n].exclusiveWaiting
    ensures run[i].gate.exclusiveWaiters == |Waiters(run[i].requests, Exclusive)|
  {
    RunInv(run, steps, configured, i);
  }

  /** Responses above the configured limit are accepted only while one exclusive request is
      exchanging, and then the limit is exactly the one it asked for. */
  lemma LargeResponsesAreExclusive(run: seq<World>, steps: seq<Step>, configured: nat, i: nat)
    requires IsRun(run, steps, configured) && i < |run|
    ensures run[i].gate.responseLimit > configured ==>
      exists id :: HasPhase(run[i], id, Inside(true)) && run[i].requests[id].kind.Exclusive? && run[i].gate.exclusiveActive
    ensures forall id :: HasPhase(run[i], id, Inside(true)) ==> run[i].gate.responseLimit == run[i].requests[id].limit
  {
    RunInv(run, steps, configured, i);
    var w := run[i];
    if w.gate.responseLimit > configured {
      var id :| HasPhase(w, id, Inside(true));
      assert id in Slots(w.requests, Exclusive);
      assert Slots(w.requests, Exclusive) != {};
    }
  }

  /** No deadlock: with the slot empty, some waiting request has been notified and will be
      admitted when it re-checks. */
  lemma WaitersAreWoken(run: seq<World>, steps: seq<Step>, configured: nat, i: nat, id: Id)
    requires IsRun(run, steps, configured) && i < |run|
    requires id in run[i].requests && run[i].requests[id].phase.Waiting?
    requires forall x :: x in run[i].requests ==> !InSlot(run[i].requests[x])
    ensures exists x :: HasPhase(run[i], x, Waiting(true)) && MayEnter(run[i].gate, run[i].requests[x].kind)
  {
    RunInv(run, steps, configured, i);
    var w := run[i];
    assert Slots(w.requests, Reader) == {} && Slots(w.requests, Exclusive) == {};
    var waiting := Waiters(w.requests, Exclusive);
    if waiting != {} {
      var x :| x in waiting;
      assert !HasPhase(w, x, Waiting(false));
      assert HasPhase(w, x, Waiting(true));
    } else {
      assert id !in waiting;
      assert !HasPhase(w, id, Waiting(false));
      assert HasPhase(w, id, Waiting(true));
    }
  }

  // ------------------------------------------------------------ lost slots

  /** Requests of a kind that will never give their slot back. */
  function LostSlots(requests: map<Id, Request>, k: Kind): (r: set<Id>) {
    set id | id in requests && requests[id].kind == k && requests[id].phase.Lost?
  }

  /** What a step does to the lost requests. */
  lemma StepLoses(w: World, configured: nat, s: Step, id: Id)
    requires Enabled(w, configured, s)
    ensures HasPhase(Apply(w, configured, s), id, Lost) <==> HasPhase(w, id, Lost) || s == LoseSlot(id)
    ensures id in w.requests ==> id in Apply(w, configured, s).requests && Apply(w, configured, s).requests[id].kind == w.requests[id].kind
  {
  }

  /** A slot is lost exactly by its step, and stays lost. */
  lemma {:induction false} LostExactlyByStep(run: seq<World>, steps: seq<Step>, configured: nat, i: nat, id: Id)
    requires IsRun(run, steps, configured) && i < |run|
    ensures HasPhase(run[i], id, Lost) <==> exists n :: 0 <= n < i && steps[n] == LoseSlot(id)
  {
    hide Apply, Enabled;
    if i > 0 {
      LostExactlyByStep(run, steps, configured, i - 1, id);
      StepLoses(run[i - 1], configured, steps[i - 1], id);
    }
  }

  lemma {:induction false} LostStays(run: seq<World>, steps: seq<Step>, configured: nat, i: nat, j: nat, id: Id)
    requires IsRun(run, steps, configured) && i <= j < |run| && HasPhase(run[i], id, Lost)
    ensures HasPhase(run[j], id, Lost) && run[j].requests[id].kind == run[i].requests[id].kind
    decreases j
  {
    hide Apply, Enabled;
    if i < j {
      LostStays(run, steps, configured, i, j - 1, id);
      StepLoses(run[j - 1], configured, steps[j - 1], id);
    }
  }

  /** Nothing is under way: every request waits, is gone, or has lost its slot. */
  predicate Quiet(w: World) {
    forall id :: id in w.requests ==> w.requests[id].phase.Waiting? || w.requests[id].phase.Gone? || w.requests[id].phase.Lost?
  }

  predicate NoSlotLost(steps: seq<Step>, i: nat)
    requires i <= |steps|
  {
    forall n :: 0 <= n < i ==> !steps[n].LoseSlot?
  }

  /** Once nothing is under way, the gate lets an exclusive request in exactly when no slot was ever lost, and a
      reader exactly when no exclusive slot was lost, fewer than four reader slots were, and no exclusive request waits. */
  lemma GateIsOpenExactly(run: seq<World>, steps: seq<Step>, configured: nat, i: nat)
    requires IsRun(run, steps, configured) && i < |run| && Quiet(run[i])
    ensures ExclusiveMayEnter(run[i].gate) <==> NoSlotLost(steps, i)
    ensures ReaderMayEnter(run[i].gate) <==>
              && LostSlots(run[i].requests, Exclusive) == {}
              && |LostSlots(run[i].requests, Reader)| < MAX_READERS
              && Waiters(run[i].requests, Exclusive) == {}
  {
    RunInv(run, steps, configured, i);
    var w := run[i];
    QuietSlotsAreLost(w);
    NothingLost(run, steps, configured, i);
    hide IsRun, NoSlotLost;
  }

  lemma QuietSlotsAreLost(w: World)
    requires Quiet(w)
    ensures forall k :: Slots(w.requests, k) == LostSlots(w.requests, k)
  {
  }

  lemma NothingLost(run: seq<World>, steps: seq<Step>, configured: nat, i: nat)
    requires IsRun(run, steps, configured) && i < |run|
    ensures NoSlotLost(steps, i) <==> LostSlots(run[i].requests, Reader) == {} && LostSlots(run[i].requests, Exclusive) == {}
  {
    hide Apply, Enabled;
    forall id ensures HasPhase(run[i], id, Lost) <==> exists n :: 0 <= n < i && steps[n] == LoseSlot(id) {
      LostExactlyByStep(run, steps, configured, i, id);
    }
    var lost := LostSlots(run[i].requests, Reader) + LostSlots(run[i].requests, Exclusive);
    assert forall id :: id in lost <==> HasPhase(run[i], id, Lost);
    if n :| 0 <= n < i && steps[n].LoseSlot? {
      assert steps[n] == LoseSlot(steps[n].id);
      assert steps[n].id in lost;
    }
    if id :| id in lost {
      assert exists n :: 0 <= n < i && steps[n] == LoseSlot(id);
    }
  }

  /** Someone waits, has been notified, and gets in at the next check. */
  ghost predicate SomeoneGetsIn(w: World) {
    exists x :: HasPhase(w, x, Waiting(true)) && MayEnter(w.gate, w.requests[x].kind)
  }

  /** Progress, exactly: once nothing is under way, some waiting request gets in if and only if the gate still
      lets one in: any request while no slot was lost, only readers while fewer than four reader slots were. */
  lemma ProgressExactly(run: seq<World>, steps: seq<Step>, configured: nat, i: nat)
    requires IsRun(run, steps, configured) && i < |run| && Quiet(run[i])
    ensures var q := run[i].requests;
            SomeoneGetsIn(run[i]) <==>
              if Waiters(q, Exclusive) != {} then NoSlotLost(steps, i)
              else Waiters(q, Reader) != {} && LostSlots(q, Exclusive) == {} && |LostSlots(q, Reader)| < MAX_READERS
  {
    GateIsOpenExactly(run, steps, configured, i);
    RunInv(run, steps, configured, i);
    hide IsRun, NoSlotLost, Counts, LimitInv;
    WaiterGetsIn(run[i]);
  }

  lemma WaiterGetsIn(w: World)
    requires WakeInv(w)
    ensures SomeoneGetsIn(w) <==>
      || (Waiters(w.requests, Exclusive) != {} && ExclusiveMayEnter(w.gate))
      || (Waiters(w.requests, Reader) != {} && ReaderMayEnter(w.gate))
  {
    hide ExclusiveMayEnter, ReaderMayEnter;
    if x :| HasPhase(w, x, Waiting(true)) && MayEnter(w.gate, w.requests[x].kind) {
      assert x in Waiters(w.requests, w.requests[x].kind);
    }
    if Waiters(w.requests, Exclusive) != {} && ExclusiveMayEnter(w.gate) {
      var x :| x in Waiters(w.requests, Exclusive);
      assert !HasPhase(w, x, Waiting(false));
      assert HasPhase(w, x, Waiting(true));
    }
    if Waiters(w.requests, Reader) != {} && ReaderMayEnter(w.gate) {
      var x :| x in Waiters(w.requests, Reader);
      assert !HasPhase(w, x, Waiting(false));
      assert HasPhase(w, x, Waiting(true));
    }
  }

  /** A step admits at most one request, and only one that its kind's predicate lets in. */
  lemma StepAdmits(w: World, configured: nat, s: Step)
    requires Enabled(w, configured, s)
    ensures var r := Apply(w, configured, s).admissions;
            || r == w.admissions
            || exists a :: r == w.admissions + [a] && if a.kind.Reader? then ReaderMayEnter(w.gate) else ExclusiveMayEnter(w.gate)
  {
    hide NotifyAll, Waiters;
  }

  lemma LostSlotShuts(w: World)
    requires Counts(w)
    ensures LostSlots(w.requests, Reader) + LostSlots(w.requests, Exclusive) != {} ==> !ExclusiveMayEnter(w.gate)
    ensures LostSlots(w.requests, Exclusive) != {} || |LostSlots(w.requests, Reader)| >= MAX_READERS ==> !ReaderMayEnter(w.gate)
  {
    assert forall k :: LostSlots(w.requests, k) <= Slots(w.requests, k);
    SubsetSize(LostSlots(w.requests, Reader), Slots(w.requests, Reader));
    SubsetSize(LostSlots(w.requests, Exclusive), Slots(w.requests, Exclusive));
  }

  lemma SubsetSize(a: set<Id>, b: set<Id>)
    requires a <= b
    ensures |a| <= |b|
  {
    assert b == a + (b - a);
  }

  lemma LostSetsGrow(run: seq<World>, steps: seq<Step>, configured: nat, i: nat, j: nat)
    requires IsRun(run, steps, configured) && i <= j < |run|
    ensures forall k :: LostSlots(run[i].requests, k) <= LostSlots(run[j].requests, k)
  {
    hide Apply, Enabled;
    forall k, id | id in LostSlots(run[i].requests, k) ensures id in LostSlots(run[j].requests, k) {
      LostStays(run, steps, configured, i, j, id);
    }
  }

  /** Lost slots are never made good: whatever happens later, after one of them no exclusive request is ever
      admitted again, and after an exclusive one, or four of readers, no request at all. */
  lemma {:induction false} LostSlotsBlockForGood(run: seq<World>, steps: seq<Step>, configured: nat, i: nat, j: nat)
    requires IsRun(run, steps, configured) && i <= j < |run|
    ensures var q, n := run[i].requests, |run[i].admissions|;
            && run[i].admissions <= run[j].admissions
            && (LostSlots(q, Reader) + LostSlots(q, Exclusive) != {} ==>
                  forall m :: n <= m < |run[j].admissions| ==> run[j].admissions[m].kind.Reader?)
            && (LostSlots(q, Exclusive) != {} || |LostSlots(q, Reader)| >= MAX_READERS ==> run[j].admissions == run[i].admissions)
    decreases j
  {
    hide Apply, Enabled, LostSlots, ReaderMayEnter, ExclusiveMayEnter;
    if i < j {
      LostSlotsBlockForGood(run, steps, configured, i, j - 1);
      LostSetsGrow(run, steps, configured, i, j - 1);
      RunInv(run, steps, configured, j - 1);
      LostSlotShuts(run[j - 1]);
      SubsetSize(LostSlots(run[i].requests, Reader), LostSlots(run[j - 1].requests, Reader));
      StepAdmits(run[j - 1], configured, steps[j - 1]);
      hide Inv, IsRun;
      var q := run[i].requests;
      OneMoreAdmission(run[i].admissions, run[j - 1].admissions, run[j].admissions, run[j - 1].gate,
                       LostSlots(q, Reader) + LostSlots(q, Exclusive) != {},
                       LostSlots(q, Exclusive) != {} || |LostSlots(q, Reader)| >= MAX_READERS);
    }
  }

  lemma OneMoreAdmission(base: seq<Admission>, before: seq<Admission>, after: seq<Admission>, g: Gate, readersOnly: bool, shut: bool)
    requires base <= before && (readersOnly ==> forall m :: |base| <= m < |before| ==> before[m].kind.Reader?) && (shut ==> before == base)
    requires || after == before
             || exists a :: after == before + [a] && if a.kind.Reader? then ReaderMayEnter(g) else ExclusiveMayEnter(g)
    requires readersOnly ==> !ExclusiveMayEnter(g)
    requires shut ==> !ReaderMayEnter(g) && !ExclusiveMayEnter(g)
    ensures base <= after && (readersOnly ==> forall m :: |base| <= m < |after| ==> after[m].kind.Reader?) && (shut ==> after == base)
  {
    hide ReaderMayEnter, ExclusiveMayEnter;
  }

  // --------------------------------------------------------- a slot that is lost

  /** An exclusive request is cancelled while it waits to give its slot back; then a reader comes. */
  function LosingSteps(configured: nat): (steps: seq<Step>) {
    [Arrive(0, Exclusive, configured), Exchange(0), EndExchange(0), LoseSlot(0), Arrive(1, Reader, configured)]
  }

  /** These steps can be taken, and leave the reader waiting with nothing under way. */
  lemma SlotCanBeLost(configured: nat)
    ensures exists run: seq<World> :: IsRun(run, LosingSteps(configured), configured)
              && Quiet(run[5]) && HasPhase(run[5], 0, Lost) && HasPhase(run[5], 1, Waiting(false)) && run[5].requests[1].kind.Reader?
  {
    var steps := LosingSteps(configured);
    var a := Apply(Init(configured), configured, steps[0]);
    var b := Apply(a, configured, steps[1]);
    var c := Apply(b, configured, steps[2]);
    var d := Apply(c, configured, steps[3]);
    var run := [Init(configured), a, b, c, d, Apply(d, configured, steps[4])];
    assert IsRun(run, steps, configured);
  }

  /** Whatever happens after them, the reader never gets in. */
  lemma ReaderWaitsForGood(run: seq<World>, steps: seq<Step>, configured: nat, j: nat)
    requires IsRun(run, steps, configured) && 5 <= j < |run| && steps[..5] == LosingSteps(configured)
    ensures run[j].admissions == run[4].admissions
    ensures 1 in run[j].requests ==> !InSlot(run[j].requests[1])
  {
    hide Apply;
    assert steps[3] == steps[..5][3] && steps[0] == steps[..5][0];
    LostExactlyByStep(run, steps, configured, 4, 0);
    ArrivedKind(run, steps, configured, 4);
    assert 0 in LostSlots(run[4].requests, Exclusive);
    LostSlotsBlockForGood(run, steps, configured, 4, j);
    LostStays(run, steps, configured, 4, j, 0);
    if 1 in run[j].requests && InSlot(run[j].requests[1]) { ExclusiveNeverOverlaps(run, steps, configured, j, 0, 1); }
  }

  lemma {:induction false} ArrivedKind(run: seq<World>, steps: seq<Step>, configured: nat, i: nat)
    requires IsRun(run, steps, configured) && 1 <= i < |run| && steps[0] == Arrive(0, Exclusive, configured)
    ensures 0 in run[i].requests && run[i].requests[0].kind == Exclusive
  {
    if i > 1 {
      hide Apply, Enabled;
      ArrivedKind(run, steps, configured, i - 1);
      StepLoses(run[i - 1], configured, steps[i - 1], 0);
    }
  }

  // ------------------------------------------------------------- the object

  /** `wait_for` checks its predicate; a request that passes is admitted. */
  function Attempt(g: Gate, k: Kind): (r: Gate) {
    if MayEnter(g, k) then Admit(g, k) else g
  }

  function Announce(g: Gate, k: Kind): (r: Gate) {
    if k.Exclusive? then g.(exclusiveWaiters := g.exclusiveWaiters + 1) else g
  }

  function Withdraw(g: Gate, k: Kind): (r: Gate) {
    if k.Exclusive? then g.(exclusiveWaiters := if g.exclusiveWaiters > 0 then g.exclusiveWaiters - 1 else 0) else g
  }

  /** The request a step is about. */
  function Subject(w: World, configured: nat, s: Step): (r: Request)
    requires Enabled(w, configured, s)
  {
    if s.Arrive? then Request(s.kind, Waiting(true), s.limit) else w.requests[s.id]
  }

  /** What each step does to the four fields. */
  function GateStep(g: Gate, configured: nat, s: Step, r: Request): (h: Gate) {
    match s
    case Arrive(_, _, _) => Attempt(Announce(g, r.kind), r.kind)
    case Wake(_) => Attempt(g, r.kind)
    case CancelWait(_) => Withdraw(g, r.kind)
    case Exchange(_) => g.(responseLimit := r.limit)
    case EndExchange(_) => g.(responseLimit := configured)
    case LeaveSlot(_) => Leave(g, r.kind)
    case LoseSlot(_) => g
  }

  /** Every step of the protocol changes the fields as one method of the object does; losing a slot changes none. */
  lemma StepMovesGate(w: World, configured: nat, s: Step)
    requires Enabled(w, configured, s)
    ensures Apply(w, configured, s).gate == GateStep(w.gate, configured, s, Subject(w, configured, s))
  {
    hide NotifyAll;
  }

  /** Where a step takes its own request; an arrival or a wake-up lets it in exactly if its predicate holds. */
  lemma SubjectMoves(w: World, configured: nat, s: Step)
    requires Enabled(w, configured, s)
    ensures var p := Apply(w, configured, s).requests[s.id].phase;
            match s
            case Arrive(_, kind, _) => p == if EnterableBy(w, s.id, kind) then Inside(false) else Waiting(false)
            case Wake(_) => p == if EnterableBy(w, s.id, w.requests[s.id].kind) then Inside(false) else Waiting(false)
            case CancelWait(_) => p == Gone
            case Exchange(_) => p == Inside(true)
            case EndExchange(_) => p == Leaving
            case LeaveSlot(_) => p == Gone
            case LoseSlot(_) => p == Lost
  {
  }

  /** A reader needs fewer than four readers and no exclusive request inside or announced; an exclusive request needs
  nobody inside. */
  predicate EnterableBy(w: World, id: Id, kind: Kind) {
    && !w.gate.exclusiveActive
    && if kind.Reader? then w.gate.exclusiveWaiters == 0 && w.gate.activeReaders < 4 else w.gate.activeReaders == 0
  }

  /** A request let in by this step. */
  predicate LetIn(w: World, configured: nat, s: Step)
    requires Enabled(w, configured, s)
  {
    (s.Arrive? || s.Wake?) && Apply(w, configured, s).requests[s.id].phase == Inside(false)
  }

  /** A step leaves every other request alone, except that one which frees a slot, lets an exclusive request in or takes
  back its announcement notifies those that wait. */
  lemma OthersAreNotified(w: World, configured: nat, s: Step, id: Id)
    requires Enabled(w, configured, s) && id in w.requests && id != s.id
    ensures var after := Apply(w, configured, s).requests;
            var notifies := s.LeaveSlot? || (after[s.id].kind.Exclusive? && (s.CancelWait? || LetIn(w, configured, s)));
            id in after && after[id] ==
              if notifies && w.requests[id].phase.Waiting? then w.requests[id].(phase := Waiting(true)) else w.requests[id]
  {
  }

  /** The history names every request let in, and whether another one, exclusive, was waiting then. */
  lemma AdmissionsAreRecorded(w: World, configured: nat, s: Step)
    requires Enabled(w, configured, s)
    ensures var waiting := exists id :: id in w.requests && id != s.id && w.requests[id].kind.Exclusive? && w.requests[id].phase.Waiting?;
            Apply(w, configured, s).admissions ==
              if LetIn(w, configured, s) then w.admissions + [Admission(Apply(w, configured, s).requests[s.id].kind, waiting)]
              else w.admissions
  {
    if s.Arrive? || s.Wake? {
      var seen := if s.Arrive? then w.requests[s.id := Request(s.kind, Waiting(true), s.limit)] else w.requests;
      var entered := seen[s.id := seen[s.id].(phase := Inside(false))];
      if id :| id in w.requests && id != s.id && w.requests[id].kind.Exclusive? && w.requests[id].phase.Waiting? {
        assert id in Waiters(entered, Exclusive);
      } else {
        assert Waiters(entered, Exclusive) == {};
      }
    }
  }

  /** What `_request` decides before it asks for the slot. */
  datatype Prepared = Limit(limit: nat) | NotAToolCall | LimitInvalid | LargeNotConcurrent

  const MAX_RESPONSE_BYTES := 6 * 16 * 1024 * 1024 + 64 * 1024

  /** The provider's counters as its methods update them; each method is one block run under
      the condition variable. */
  class RequestSlot {
    var exclusiveActive: bool
    var exclusiveWaiters: nat
    var activeReaders: nat
    var responseLimit: nat
    const configured: nat

    function View(): (r: Gate)
      reads this
    {
      Gate(exclusiveActive, exclusiveWaiters, activeReaders, responseLimit)
    }

    constructor (configured: nat)
      ensures View() == Init(configured).gate && this.configured == configured
    {
      this.configured, responseLimit := configured, configured;
      exclusiveActive, exclusiveWaiters, activeReaders := false, 0, 0;
    }

    /** The checks before the slot. A request that passes them may arrive with the limit returned. */
    method Prepare(kind: Kind, toolCall: bool, responseByteLimit: Option<int>) returns (p: Prepared)
      ensures p.NotAToolCall? <==> kind.Reader? && !toolCall
      ensures p.LimitInvalid? <==> (kind.Reader? ==> toolCall) && responseByteLimit.Some? && !(1 <= responseByteLimit.value <= MAX_RESPONSE_BYTES)
      ensures p.Limit? ==> LimitAllowed(kind, p.limit, configured)
      ensures p.Limit? ==> p.limit == if responseByteLimit.Some? && responseByteLimit.value > configured then responseByteLimit.value else configured
      ensures p.LargeNotConcurrent? <==> kind.Reader? && toolCall && responseByteLimit.Some?
                                         && 1 <= responseByteLimit.value <= MAX_RESPONSE_BYTES && responseByteLimit.value > configured
    {
      if kind.Reader? && !toolCall { return NotAToolCall; }
      var limit: nat := configured;
      if responseByteLimit.Some? {
        if !(1 <= responseByteLimit.value <= MAX_RESPONSE_BYTES) { return LimitInvalid; }
        if responseByteLimit.value > configured { limit := responseByteLimit.value; }
      }
      if kind.Reader? && limit > configured { return LargeNotConcurrent; }
      p := Limit(limit);
    }

    /** Asking for the slot, up to the first predicate check. */
    method Arrive(kind: Kind) returns (admitted: bool)
      modifies this
      ensures View() == Attempt(Announce(old(View()), kind), kind)
      ensures admitted == MayEnter(Announce(old(View()), kind), kind)
    {
      if kind.Exclusive? { exclusiveWaiters := exclusiveWaiters + 1; }
      admitted := Check(kind);
    }

    /** One predicate check of `wait_for`, with the admission when it passes. */
    method Check(kind: Kind) returns (admitted: bool)
      requires kind.Exclusive? ==> exclusiveWaiters > 0
      modifies this
      ensures admitted == MayEnter(old(View()), kind)
      ensures View() == Attempt(old(View()), kind)
    {
      match kind {
        case Reader =>
          admitted := !exclusiveActive && exclusiveWaiters == 0 && activeReaders < MAX_READERS;
          if admitted { activeReaders := activeReaders + 1; }
        case Exclusive =>
          admitted := !exclusiveActive && activeReaders == 0;
          if admitted {
            exclusiveWaiters := exclusiveWaiters - 1;
            exclusiveActive := true;
          }
      }
    }

    /** The wait ends by cancellation. */
    method CancelWait(kind: Kind)
      requires kind.Exclusive? ==> exclusiveWaiters > 0
      modifies this`exclusiveWaiters
      ensures View() == Withdraw(old(View()), kind)
    {
      if kind.Exclusive? { exclusiveWaiters := exclusiveWaiters - 1; }
    }

    /** Inside the slot: the limit is published before the request is written. */
    method PublishLimit(limit: nat)
      modifies this`responseLimit
      ensures View() == old(View()).(responseLimit := limit)
    {
      responseLimit := limit;
    }

    /** Response, error or cancellation. */
    method EndExchange()
      modifies this`responseLimit
      ensures View() == old(View()).(responseLimit := configured)
    {
      responseLimit := configured;
    }

    /** The slot's finally block. */
    method Release(kind: Kind)
      requires if kind.Reader? then activeReaders > 0 else exclusiveActive
      modifies this`activeReaders, this`exclusiveActive
      ensures View() == Leave(old(View()), kind)
    {
      match kind {
        case Reader => activeReaders := activeReaders - 1;
        case Exclusive => exclusiveActive := false;
      }
    }
  }

  /** The requirements of the methods hold whenever the protocol calls them. */
  lemma CountersAreThere(w: World, configured: nat, s: Step)
    requires Inv(w, configured) && Enabled(w, configured, s)
    ensures (s.Wake? || s.CancelWait?) && w.requests[s.id].kind.Exclusive? ==> w.gate.exclusiveWaiters > 0
    ensures s.LeaveSlot? ==> if w.requests[s.id].kind.Reader? then w.gate.activeReaders > 0 else w.gate.exclusiveActive
  {
    if s.Wake? || s.CancelWait? {
      if w.requests[s.id].kind.Exclusive? { assert s.id in Waiters(w.requests, Exclusive); }
    }
    if s.LeaveSlot? { assert s.id in Slots(w.requests, w.requests[s.id].kind); }
  }
}
