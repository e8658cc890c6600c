/** Serialisation of ungranted MCP calls per server, built on the cross-loop lock.

A handler acquires its server's lock, creates a provider task and waits for it behind a
shield; that task releases the lock when the provider call settles. The lock of a server
sits in a weak dictionary, so it survives re-registration while any handler closure or
unfinished call still refers to it, and may be replaced afterwards. */
module ServerGate {
  import opened LockCore
  import opened LockProtocol
  import opened LockSafety

  type Server = string
  type LockId = nat

  /** Progress of one ungranted call. `Owning`: acquire returned, no task yet. `Queued`: the
      task exists but has not started. `Running`: call_tool is dispatched and unsettled. */
  datatype Phase = Acquiring | GaveUp | Owning | Queued | Running | Settled | Done

  predicate Holding(p: Phase) {
    p in {Owning, Queued, Running, Settled}
  }

  datatype CallInfo = CallInfo(server: Server, lock: LockId, phase: Phase)

  datatype Site = Site(
    gate: map<Server, LockId>,          // the weak dictionary
    locks: map<LockId, World>,
    handlers: set<(Server, LockId)>,    // live handler closures
    calls: map<Call, CallInfo>,
    watchers: set<Call>,                // handlers still awaiting their shielded task
    acquisitions: seq<Call>,
    releases: seq<Call>)

  datatype Event =
    | Register(server: Server, spare: LockId)
    | DropHandler(server: Server, lock: LockId)   // unregistered or replaced, closure gone
    | Collect(server: Server)                     // the weak entry disappears
    | Start(call: Call, server: Server, lock: LockId)
    | LockStep(lock: LockId, step: Step)          // any lock step but acquire and release
    | CreateTask(call: Call)
    | CreateFails(call: Call)
    | Dispatch(call: Call)
    | Settle(call: Call)
    | Finish(call: Call)                          // finally block of that task
    | StopWaiting(call: Call)                     // a tool timeout cancels the shielded wait

  function Empty(): (r: Site) {
    Site(map[], map[], {}, map[], {}, [], [])
  }

  predicate Wired(s: Site) {
    && (forall l :: l in s.locks ==> Wf(s.locks[l]))
    && (forall v :: v in s.gate ==> s.gate[v] in s.locks)
    && (forall c :: c in s.calls ==> s.calls[c].lock in s.locks)
  }

  predicate InPhase(s: Site, c: Call, p: Phase) {
    c in s.calls && s.calls[c].phase == p
  }

  /** Something other than the weak dictionary still refers to the server's lock. */
  predicate Referenced(s: Site, v: Server, l: LockId) {
    (v, l) in s.handlers || exists c :: c in s.calls && s.calls[c].server == v && s.calls[c].lock == l && s.calls[c].phase !in {GaveUp, Done}
  }

  predicate Possible(s: Site, e: Event)
    requires Wired(s)
  {
    match e
    case Register(v, l) => l !in s.locks
    case DropHandler(v, l) => (v, l) in s.handlers
    case Collect(v) => v in s.gate && !Referenced(s, v, s.gate[v])
    case Start(c, v, l) => c !in s.calls && (v, l) in s.handlers && l in s.locks && Enabled(s.locks[l], Acquire(c))
    case LockStep(l, t) => l in s.locks && !t.Acquire? && !t.Release? && Enabled(s.locks[l], t)
    case CreateTask(c) => InPhase(s, c, Owning)
    case CreateFails(c) => InPhase(s, c, Owning) && Enabled(s.locks[s.calls[c].lock], Release(c))
    case Dispatch(c) => InPhase(s, c, Queued)
    case Settle(c) => InPhase(s, c, Running)
    case Finish(c) => InPhase(s, c, Settled) && Enabled(s.locks[s.calls[c].lock], Release(c))
    case StopWaiting(c) => c in s.watchers
  }

  function Move(s: Site, c: Call, p: Phase): (r: Site) {
    if c in s.calls then s.(calls := s.calls[c := s.calls[c].(phase := p)]) else s
  }

  function ReleaseBy(s: Site, c: Call): (r: Site)
    requires Wired(s) && c in s.calls && Enabled(s.locks[s.calls[c].lock], Release(c))
  {
    var l := s.calls[c].lock;
    Move(s, c, Done).(locks := s.locks[l := Apply(s.locks[l], Release(c))], releases := s.releases + [c])
  }

  function After(s: Site, e: Event): (r: Site)
    requires Wired(s) && Possible(s, e)
  {
    match e
    case Register(v, l) =>
      if v in s.gate then s.(handlers := s.handlers + {(v, s.gate[v])})
      else s.(gate := s.gate[v := l], locks := s.locks[l := Init()], handlers := s.handlers + {(v, l)})
    case DropHandler(v, l) => s.(handlers := s.handlers - {(v, l)})
    case Collect(v) => s.(gate := s.gate - {v})
    case Start(c, v, l) =>
      var free := !s.locks[l].core.locked;
      s.(calls := s.calls[c := CallInfo(v, l, if free then Owning else Acquiring)],
         locks := s.locks[l := Apply(s.locks[l], Acquire(c))],
         acquisitions := if free then s.acquisitions + [c] else s.acquisitions)
    case LockStep(l, t) =>
      var s' := s.(locks := s.locks[l := Apply(s.locks[l], t)]);
      if t.Resume? then Move(s', t.call, Owning).(acquisitions := s.acquisitions + [t.call])
      else if t.Interrupt? then Move(s', t.call, GaveUp)
      else s'
    case CreateTask(c) => Move(s, c, Queued).(watchers := s.watchers + {c})
    case CreateFails(c) => ReleaseBy(s, c)
    case Dispatch(c) => Move(s, c, Running)
    case Settle(c) => Move(s, c, Settled)
    case Finish(c) => ReleaseBy(s, c)
    case StopWaiting(c) => s.(watchers := s.watchers - {c})
  }

  predicate IsHistory(sites: seq<Site>, events: seq<Event>) {
    && |sites| == |events| + 1
    && sites[0] == Empty()
    && forall i :: 0 <= i < |events| ==> Wired(sites[i]) && Possible(sites[i], events[i]) && sites[i + 1] == After(sites[i], events[i])
  }

  // --------------------------------------------------------------- invariant

  /** A call and the lock it uses agree about who holds and who waits. */
  ghost predicate CallInv(s: Site, c: Call)
    requires Wired(s) && c in s.calls
  {
    var i := s.calls[c];
    var w := s.locks[i.lock];
    && c in w.log.arrivals
    && (c in w.holders <==> Holding(i.phase))
    && (c in w.awaiting <==> i.phase == Acquiring)
    && (i.phase !in {GaveUp, Done} ==> i.server in s.gate && s.gate[i.server] == i.lock)
    && Counted(s, c)
  }

  /** A call's acquisition and release are on record according to its phase. */
  ghost predicate Counted(s: Site, c: Call)
    requires c in s.calls
  {
    && (c in s.releases <==> s.calls[c].phase == Done)
    && (c in s.acquisitions <==> Holding(s.calls[c].phase) || s.calls[c].phase == Done)
  }

  ghost predicate SiteInv(s: Site) {
    && Wired(s)
    && (forall l :: l in s.locks ==> Inv(s.locks[l]))
    && (forall l, c :: l in s.locks && c in s.locks[l].log.arrivals ==> c in s.calls && s.calls[c].lock == l)
    && (forall v, l :: (v, l) in s.handlers ==> v in s.gate && s.gate[v] == l)
    && (forall c :: c in s.calls ==> CallInv(s, c))
    && NoDup(s.acquisitions) && NoDup(s.releases)
    && (forall c :: c in s.acquisitions || c in s.releases ==> c in s.calls)
  }

  lemma LockSets(w: World, t: Step)
    requires Wf(w) && Enabled(w, t) && !t.Acquire? && !t.Release?
    ensures Apply(w, t).log.arrivals == w.log.arrivals
    ensures Apply(w, t).holders == if t.Resume? && w.core.state[t.call] == Granted then w.holders + {t.call} else w.holders
    ensures Apply(w, t).awaiting == if t.Resume? || t.Interrupt? then w.awaiting - {t.call} else w.awaiting
  {
    hide NextWaiter, PassOn, CancelWaiter, AbandonGrant, DispatchAll;
  }

  /** What a lock step other than acquire and release does to holders and waiters. */
  lemma LockEffect(w: World, t: Step)
    requires Inv(w) && Enabled(w, t) && !t.Acquire? && !t.Release?
    ensures Inv(Apply(w, t)) && Wf(Apply(w, t))
    ensures Apply(w, t).log.arrivals == w.log.arrivals
    ensures Apply(w, t).holders == if t.Resume? then w.holders + {t.call} else w.holders
    ensures Apply(w, t).awaiting == if t.Resume? || t.Interrupt? then w.awaiting - {t.call} else w.awaiting
    ensures t.Resume? || t.Interrupt? ==> t.call in w.awaiting && t.call in w.log.arrivals
  {
    hide Inv, Wf, Apply;
    InFlightCallsArrived(w);
    StepKeepsInv(w, t);
    LockSets(w, t);
    InFlightCallsArrived(Apply(w, t));
    if t.Resume? { ResumesGranted(w, t.call); }
  }

  lemma ResumesGranted(w: World, c: Call)
    requires Inv(w) && c in w.awaiting && w.future[c] == Resolved
    ensures w.core.state[c] == Granted
  {
  }

  lemma EndpointEffect(w: World, t: Step)
    requires Inv(w) && Enabled(w, t) && (t.Acquire? || t.Release?)
    ensures var v := Apply(w, t);
            && Inv(v) && Wf(v)
            && v.log.arrivals == (if t.Acquire? then w.log.arrivals + [t.call] else w.log.arrivals)
            && v.holders == (if t.Release? then w.holders - {t.call} else if w.core.locked then w.holders else w.holders + {t.call})
            && v.awaiting == (if t.Acquire? && w.core.locked then w.awaiting + {t.call} else w.awaiting)
  {
    StepKeepsInv(w, t);
    if t.Release? { ReleaseStep(w, t.call); }
    InFlightCallsArrived(Apply(w, t));
    hide Inv, Wf;
  }

  lemma InFlightCallsArrived(w: World)
    requires Inv(w)
    ensures Wf(w) && (forall c :: c in w.holders || c in w.awaiting ==> c in w.log.arrivals)
  {
  }

  lemma FreshLock()
    ensures Inv(Init()) && Wf(Init()) && Init().log.arrivals == []
  {
  }

  /** One call and its lock change together; everything else stays. */
  function Update(s: Site, c: Call, i: CallInfo, v: World, acquired: bool, released: bool): (r: Site) {
    s.(locks := s.locks[i.lock := v], calls := s.calls[c := i],
       acquisitions := if acquired then s.acquisitions + [c] else s.acquisitions,
       releases := if released then s.releases + [c] else s.releases)
  }

  /** The lock's new state `v` agrees with the call's new phase and leaves other calls alone. */
  ghost predicate Matches(s: Site, c: Call, i: CallInfo, v: World, acquired: bool, released: bool) {
    && i.lock in s.locks && (c in s.calls ==> s.calls[c].lock == i.lock)
    && (forall d :: d in v.log.arrivals <==> d in s.locks[i.lock].log.arrivals || d == c)
    && (forall d :: d != c ==> (d in v.holders <==> d in s.locks[i.lock].holders))
    && (forall d :: d != c ==> (d in v.awaiting <==> d in s.locks[i.lock].awaiting))
    && (c in v.holders <==> Holding(i.phase))
    && (c in v.awaiting <==> i.phase == Acquiring)
    && (i.phase !in {GaveUp, Done} ==> i.server in s.gate && s.gate[i.server] == i.lock)
    && (acquired || c in s.acquisitions <==> Holding(i.phase) || i.phase == Done) && (acquired ==> c !in s.acquisitions)
    && (released || c in s.releases <==> i.phase == Done) && (released ==> c !in s.releases)
  }

  lemma UpdateIsWired(s: Site, c: Call, i: CallInfo, v: World, acquired: bool, released: bool)
    requires Wired(s) && i.lock in s.locks && Wf(v)
    ensures Wired(Update(s, c, i, v, acquired, released))
  {
    hide Wf;
  }

  lemma Bystander(s: Site, c: Call, i: CallInfo, v: World, acquired: bool, released: bool, r: Site, d: Call)
    requires Wired(s) && Matches(s, c, i, v, acquired, released)
    requires r == Update(s, c, i, v, acquired, released) && Wired(r)
    requires d != c && d in s.calls && CallInv(s, d)
    ensures CallInv(r, d)
  {
    hide Wf, Wired;
  }

  lemma Mover(s: Site, c: Call, i: CallInfo, v: World, acquired: bool, released: bool, r: Site)
    requires Wired(s) && Matches(s, c, i, v, acquired, released)
    requires r == Update(s, c, i, v, acquired, released) && Wired(r)
    ensures CallInv(r, c)
  {
    hide Wf, Wired;
  }

  lemma Bystanders(s: Site, c: Call, i: CallInfo, v: World, acquired: bool, released: bool)
    requires SiteInv(s) && Matches(s, c, i, v, acquired, released) && Wf(v)
    ensures var r := Update(s, c, i, v, acquired, released); Wired(r) && forall d :: d in r.calls ==> CallInv(r, d)
  {
    hide Inv, Wf, CallInv;
    UpdateIsWired(s, c, i, v, acquired, released);
    var r := Update(s, c, i, v, acquired, released);
    Mover(s, c, i, v, acquired, released, r);
    forall d | d in r.calls ensures CallInv(r, d) {
      if d != c { Bystander(s, c, i, v, acquired, released, r, d); }
    }
  }

  lemma UpdateKeeps(s: Site, c: Call, i: CallInfo, v: World, acquired: bool, released: bool)
    requires SiteInv(s) && Matches(s, c, i, v, acquired, released) && Inv(v) && Wf(v)
    ensures SiteInv(Update(s, c, i, v, acquired, released))
  {
    hide Inv, Wf, CallInv;
    Bystanders(s, c, i, v, acquired, released);
    UpdateCounts(s, c, i, v, acquired, released);
    hide Wired, NoDup, Holding;
    ghost var r := Update(s, c, i, v, acquired, released);
    forall l, d | l in r.locks && d in r.locks[l].log.arrivals ensures d in r.calls && r.calls[d].lock == l {
      assert d != c ==> d in s.locks[l].log.arrivals;
    }
  }

  lemma UpdateCounts(s: Site, c: Call, i: CallInfo, v: World, acquired: bool, released: bool)
    requires SiteInv(s) && Matches(s, c, i, v, acquired, released)
    ensures var r := Update(s, c, i, v, acquired, released);
            NoDup(r.acquisitions) && NoDup(r.releases) && forall d :: d in r.acquisitions || d in r.releases ==> d in r.calls
  {
    hide Inv, Wf, CallInv, Wired;
    NoDupSnocIf(s.acquisitions, c);
    NoDupSnocIf(s.releases, c);
  }

  lemma StartKeeps(s: Site, c: Call, v: Server, l: LockId)
    requires SiteInv(s) && Possible(s, Start(c, v, l))
    ensures SiteInv(After(s, Start(c, v, l)))
  {
    hide Inv, Wf;
    EndpointEffect(s.locks[l], Acquire(c));
    InFlightCallsArrived(s.locks[l]);
    var free := !s.locks[l].core.locked;
    hide CallInv, Apply;
    UpdateKeeps(s, c, CallInfo(v, l, if free then Owning else Acquiring), Apply(s.locks[l], Acquire(c)), free, false);
  }

  lemma NoDupSnocIf(q: seq<Call>, c: Call)
    requires NoDup(q)
    ensures c !in q ==> NoDup(q + [c])
  {
  }

  lemma LockStepKeeps(s: Site, l: LockId, t: Step)
    requires SiteInv(s) && Possible(s, LockStep(l, t))
    ensures SiteInv(After(s, LockStep(l, t)))
  {
    hide Inv, Wf, Apply, Enabled;
    var w := s.locks[l];
    LockEffect(w, t);
    InFlightCallsArrived(Apply(w, t));
    if t.Resume? || t.Interrupt? {
      assert CallInv(s, t.call);
      WaiterMoves(s, l, t.call, Apply(w, t), t.Resume?);
    } else {
      QuietLockStep(s, l, Apply(w, t));
    }
  }

  lemma QuietLockStep(s: Site, l: LockId, v: World)
    requires SiteInv(s) && l in s.locks && Inv(v) && Wf(v)
    requires v.log.arrivals == s.locks[l].log.arrivals && v.holders == s.locks[l].holders && v.awaiting == s.locks[l].awaiting
    ensures SiteInv(s.(locks := s.locks[l := v]))
  {
    hide Inv, Wf;
    var r := s.(locks := s.locks[l := v]);
    forall d | d in r.calls ensures CallInv(r, d) { assert CallInv(s, d); }
  }

  /** A waiting call stops waiting: it becomes the holder, or it gives up. */
  lemma WaiterMoves(s: Site, l: LockId, c: Call, v: World, resumed: bool)
    requires SiteInv(s) && l in s.locks && c in s.locks[l].awaiting && c in s.locks[l].log.arrivals
    requires Inv(v) && Wf(v) && v.log.arrivals == s.locks[l].log.arrivals && v.awaiting == s.locks[l].awaiting - {c}
    requires v.holders == if resumed then s.locks[l].holders + {c} else s.locks[l].holders
    ensures var s' := Move(s.(locks := s.locks[l := v]), c, if resumed then Owning else GaveUp);
            SiteInv(if resumed then s'.(acquisitions := s.acquisitions + [c]) else s')
  {
    hide Inv, Wf;
    assert CallInv(s, c);
    UpdateKeeps(s, c, s.calls[c].(phase := if resumed then Owning else GaveUp), v, resumed, false);
  }

  lemma ReleaseKeeps(s: Site, c: Call)
    requires SiteInv(s) && c in s.calls && Holding(s.calls[c].phase) && Enabled(s.locks[s.calls[c].lock], Release(c))
    ensures SiteInv(ReleaseBy(s, c))
  {
    hide Inv, Wf;
    assert CallInv(s, c);
    EndpointEffect(s.locks[s.calls[c].lock], Release(c));
    hide Apply;
    UpdateKeeps(s, c, s.calls[c].(phase := Done), Apply(s.locks[s.calls[c].lock], Release(c)), false, true);
  }

  lemma MoveKeeps(s: Site, c: Call, p: Phase)
    requires SiteInv(s) && c in s.calls && Holding(s.calls[c].phase) && Holding(p)
    ensures SiteInv(Move(s, c, p))
  {
    hide Inv, Wf;
    assert CallInv(s, c);
    var i := s.calls[c];
    assert s.locks[i.lock := s.locks[i.lock]] == s.locks;
    UpdateKeeps(s, c, i.(phase := p), s.locks[i.lock], false, false);
  }

  lemma RegisterKeeps(s: Site, v: Server, l: LockId)
    requires SiteInv(s) && Possible(s, Register(v, l))
    ensures SiteInv(After(s, Register(v, l)))
  {
    hide Inv, Wf, CallInv, Enabled;
    if v in s.gate {
      SideFields(s, s.handlers + {(v, s.gate[v])}, s.watchers);
    } else {
      NewLock(s, v, l);
      SideFields(s.(gate := s.gate[v := l], locks := s.locks[l := Init()]), s.handlers + {(v, l)}, s.watchers);
    }
  }

  /** A server without a lock gets a fresh one, which nobody uses yet. */
  lemma NewLock(s: Site, v: Server, l: LockId)
    requires SiteInv(s) && l !in s.locks && v !in s.gate
    ensures SiteInv(s.(gate := s.gate[v := l], locks := s.locks[l := Init()]))
  {
    hide Inv, Wf, CallInv;
    FreshLock();
    var r := s.(gate := s.gate[v := l], locks := s.locks[l := Init()]);
    assert Wired(r);
    forall d | d in r.calls ensures CallInv(r, d) { NewLockIsUnused(s, v, l, r, d); }
  }

  lemma NewLockIsUnused(s: Site, v: Server, l: LockId, r: Site, d: Call)
    requires Wired(s) && l !in s.locks && v !in s.gate && d in s.calls && CallInv(s, d)
    requires r == s.(gate := s.gate[v := l], locks := s.locks[l := Init()]) && Wired(r)
    ensures CallInv(r, d)
  {
    hide Wf;
  }

  lemma CollectKeeps(s: Site, v: Server)
    requires SiteInv(s) && Possible(s, Collect(v))
    ensures SiteInv(After(s, Collect(v)))
  {
    hide Inv, Wf;
    var r := After(s, Collect(v));
    forall d | d in r.calls ensures Wired(r) && CallInv(r, d) {
      assert CallInv(s, d);
      assert s.calls[d].phase !in {GaveUp, Done} ==> s.calls[d].server != v;
    }
  }

  lemma BystanderKeeps(s: Site, e: Event)
    requires SiteInv(s) && Possible(s, e) && (e.DropHandler? || e.StopWaiting?)
    ensures SiteInv(After(s, e))
  {
    hide Inv, Wf, Enabled;
    match e
    case DropHandler(v, l) => SideFields(s, s.handlers - {(v, l)}, s.watchers);
    case StopWaiting(c) => SideFields(s, s.handlers, s.watchers - {c});
  }

  /** Handlers of current locks and watchers may come and go without touching calls or locks. */
  lemma SideFields(s: Site, handlers: set<(Server, LockId)>, watchers: set<Call>)
    requires SiteInv(s) && forall v, l :: (v, l) in handlers ==> v in s.gate && s.gate[v] == l
    ensures SiteInv(s.(handlers := handlers, watchers := watchers))
  {
    hide Inv, Wf;
    var r := s.(handlers := handlers, watchers := watchers);
    forall d | d in r.calls ensures CallInv(r, d) { assert CallInv(s, d); }
  }

  lemma EventKeepsInv(s: Site, e: Event)
    requires SiteInv(s) && Possible(s, e)
    ensures SiteInv(After(s, e))
  {
    hide Inv, Wf;
    match e
    case Start(c, v, l) => StartKeeps(s, c, v, l);
    case LockStep(l, t) => LockStepKeeps(s, l, t);
    case CreateTask(c) => MoveKeeps(s, c, Queued); SideFields(Move(s, c, Queued), s.handlers, s.watchers + {c});
    case CreateFails(c) => ReleaseKeeps(s, c);
    case Dispatch(c) => MoveKeeps(s, c, Running);
    case Settle(c) => MoveKeeps(s, c, Settled);
    case Finish(c) => ReleaseKeeps(s, c);
    case Register(v, l) => RegisterKeeps(s, v, l);
    case Collect(v) => CollectKeeps(s, v);
    case _ => BystanderKeeps(s, e);
  }

  lemma EmptyInv()
    ensures SiteInv(Empty())
  {
  }

  lemma {:induction false} HistoryInv(sites: seq<Site>, events: seq<Event>, i: nat)
    requires IsHistory(sites, events) && i < |sites|
    ensures SiteInv(sites[i])
  {
    hide SiteInv, Wired, Possible, After, Wf;
    EmptyInv();
    if i > 0 {
      HistoryInv(sites, events, i - 1);
      EventKeepsInv(sites[i - 1], events[i - 1]);
    }
  }

  /** Across timeouts, cancelled waiters, closed loops and re-registration, one server never
      has two ungranted calls past their acquire: in particular at most one is dispatched
      and unsettled. */
  lemma OneUngrantedCallPerServer(sites: seq<Site>, events: seq<Event>, i: nat, c: Call, d: Call)
    requires IsHistory(sites, events) && i < |sites|
    requires c in sites[i].calls && d in sites[i].calls && sites[i].calls[c].server == sites[i].calls[d].server
    requires Holding(sites[i].calls[c].phase) && Holding(sites[i].calls[d].phase)
    ensures c == d
  {
    HistoryInv(sites, events, i);
    var s := sites[i];
    assert CallInv(s, c) && CallInv(s, d);
    var w := s.locks[s.calls[c].lock];
    assert Owns(w, c) && Owns(w, d);
  }

  /** Every acquisition is released exactly once, when its call is done, and a call that
      still holds the lock can always take its next step. */
  lemma AcquisitionsMatchReleases(sites: seq<Site>, events: seq<Event>, i: nat)
    requires IsHistory(sites, events) && i < |sites|
    ensures var s := sites[i];
            && NoDup(s.acquisitions) && NoDup(s.releases)
            && (forall c :: c in s.releases ==> c in s.acquisitions)
            && (forall c :: c in s.acquisitions && c !in s.releases ==> c in s.calls && Holding(s.calls[c].phase))
            && (forall c :: c in s.calls && Holding(s.calls[c].phase) ==> c in s.acquisitions && c !in s.releases)
            && (forall c :: InPhase(s, c, Settled) ==> Wired(s) && Possible(s, Finish(c)))
  {
    hide Inv, Wf, Possible, CallInv, Wired, After;
    HistoryInv(sites, events, i);
    hide IsHistory;
    var s := sites[i];
    forall c | c in s.calls ensures Counted(s, c) { CallIsCounted(s, c); }
    forall c | InPhase(s, c, Settled) ensures Possible(s, Finish(c)) { SettledCanFinish(s, c); }
  }

  lemma CallIsCounted(s: Site, c: Call)
    requires SiteInv(s) && c in s.calls
    ensures Counted(s, c)
  {
    hide Inv, Wf;
    assert CallInv(s, c);
  }

  lemma SettledCanFinish(s: Site, c: Call)
    requires SiteInv(s) && InPhase(s, c, Settled)
    ensures Possible(s, Finish(c))
  {
    hide Inv, Wf;
    assert CallInv(s, c);
  }

  // ------------------------------------------------------------- what the shield buys

  /** The events without the tool timeouts. */
  function WithoutTimeouts(events: seq<Event>): (r: seq<Event>) {
    if events == [] then []
    else if events[|events| - 1].StopWaiting? then WithoutTimeouts(events[..|events| - 1])
    else WithoutTimeouts(events[..|events| - 1]) + [events[|events| - 1]]
  }

  /** Alike in everything but who is still waiting for a shielded task. */
  predicate AlikeButWatchers(s: Site, t: Site) {
    s.(watchers := {}) == t.(watchers := {})
  }

  lemma TimeoutKeepsTheRest(s: Site, e: Event)
    requires Wired(s) && Possible(s, e) && e.StopWaiting?
    ensures AlikeButWatchers(s, After(s, e))
  {
  }

  lemma OtherEventsIgnoreWatchers(s: Site, t: Site, e: Event)
    requires Wired(s) && Possible(s, e) && !e.StopWaiting? && AlikeButWatchers(s, t)
    ensures Wired(t) && Possible(t, e) && AlikeButWatchers(After(s, e), After(t, e))
  {
    hide Wf, Apply, Enabled;
    assert t == s.(watchers := t.watchers);
  }

  ghost predicate LeadsTo(events: seq<Event>, t: Site) {
    exists sites :: IsHistory(sites, events) && sites[|sites| - 1] == t
  }

  lemma LeadsFurther(events: seq<Event>, t: Site, e: Event)
    requires LeadsTo(events, t) && Wired(t) && Possible(t, e)
    ensures LeadsTo(events + [e], After(t, e))
  {
    hide Wf, Possible, After, Wired;
    var sites :| IsHistory(sites, events) && sites[|sites| - 1] == t;
    var longer, all, n := sites + [After(t, e)], events + [e], |events|;
    assert forall i :: 0 <= i <= n ==> longer[i] == sites[i];
    forall i | 0 <= i < |all| ensures Wired(longer[i]) && Possible(longer[i], all[i]) && longer[i + 1] == After(longer[i], all[i]) {
      assert i < n ==> all[i] == events[i];
    }
    assert IsHistory(longer, all);
  }

  /** Behind the shield a timeout only ends a wait that no other event looks at. Corollary: striking every timeout from
      a history leaves a history of its own, which ends with the same calls, locks, acquisitions and releases. */
  lemma {:induction false} TimeoutsLeaveNoTrace(sites: seq<Site>, events: seq<Event>)
    requires IsHistory(sites, events)
    ensures exists t :: LeadsTo(WithoutTimeouts(events), t) && AlikeButWatchers(sites[|sites| - 1], t)
    decreases |events|
  {
    hide Wf, Possible, After, AlikeButWatchers;
    if events == [] {
      assert sites[|sites| - 1] == Empty() && WithoutTimeouts(events) == events;
      assert LeadsTo(WithoutTimeouts(events), Empty());
      EmptyIsAlike();
    } else {
      var n := |events| - 1;
      ShorterHistory(sites, events);
      TimeoutsLeaveNoTrace(sites[..|sites| - 1], events[..n]);
      var t :| LeadsTo(WithoutTimeouts(events[..n]), t) && AlikeButWatchers(sites[n], t);
      if events[n].StopWaiting? {
        TimeoutKeepsTheRest(sites[n], events[n]);
        AlikeChains(sites[n + 1], sites[n], t);
        assert LeadsTo(WithoutTimeouts(events), t);
      } else {
        OtherEventsIgnoreWatchers(sites[n], t, events[n]);
        LeadsFurther(WithoutTimeouts(events[..n]), t, events[n]);
        assert LeadsTo(WithoutTimeouts(events), After(t, events[n]));
      }
    }
  }

  lemma EmptyIsAlike()
    ensures AlikeButWatchers(Empty(), Empty())
  {
  }

  lemma AlikeChains(a: Site, b: Site, c: Site)
    requires AlikeButWatchers(b, a) && AlikeButWatchers(b, c)
    ensures AlikeButWatchers(a, c)
  {
  }

  lemma ShorterHistory(sites: seq<Site>, events: seq<Event>)
    requires IsHistory(sites, events) && events != []
    ensures IsHistory(sites[..|sites| - 1], events[..|events| - 1])
    ensures Wired(sites[|events| - 1]) && Possible(sites[|events| - 1], events[|events| - 1])
    ensures sites[|events|] == After(sites[|events| - 1], events[|events| - 1])
  {
    hide Wf, Possible, After, Wired;
  }

  // --------------------------------------------------------------- the course of a call

  /** How one event may change the progress of a call. */
  predicate Advances(before: Phase, after: Phase, e: Event, c: Call) {
    || after == before
    || (before == Acquiring && after == Owning && e.LockStep? && e.step == Resume(c))
    || (before == Acquiring && after == GaveUp && e.LockStep? && e.step == Interrupt(c))
    || (before == Owning && after == Queued && e == CreateTask(c))
    || (before == Owning && after == Done && e == CreateFails(c))
    || (before == Queued && after == Running && e == Dispatch(c))
    || (before == Running && after == Settled && e == Settle(c))
    || (before == Settled && after == Done && e == Finish(c))
  }

  /** A call runs through its phases in order, each by its own event and no other. */
  lemma CallsAdvance(s: Site, e: Event, c: Call)
    requires SiteInv(s) && Possible(s, e) && c in s.calls
    ensures var t := After(s, e);
            c in t.calls && t.calls[c].server == s.calls[c].server && t.calls[c].lock == s.calls[c].lock
            && Advances(s.calls[c].phase, t.calls[c].phase, e, c)
  {
    hide Inv, Wf, Apply;
    assert CallInv(s, c);
    if e.LockStep? && (e.step.Resume? || e.step.Interrupt?) { WaiterIsOfThatLock(s, e.lock, e.step); }
  }

  /** A step of a waiting call is a step of the lock it waits for. */
  lemma WaiterIsOfThatLock(s: Site, l: LockId, t: Step)
    requires SiteInv(s) && Possible(s, LockStep(l, t)) && (t.Resume? || t.Interrupt?)
    ensures t.call in s.calls && s.calls[t.call].lock == l && s.calls[t.call].phase == Acquiring
  {
    hide Inv, Apply;
    InFlightCallsArrived(s.locks[l]);
    assert CallInv(s, t.call);
  }

  /** Every phase after the acquisition can be left: an acquired call can get its task, a task can dispatch, a dispatched
  call can settle, and a settled one can give the lock back; each leads to the next phase. */
  lemma CallsCanGoOn(s: Site, c: Call)
    requires SiteInv(s) && c in s.calls
    ensures var p := s.calls[c].phase;
            && (p == Owning ==> Possible(s, CreateTask(c)) && InPhase(After(s, CreateTask(c)), c, Queued))
            && (p == Queued ==> Possible(s, Dispatch(c)) && InPhase(After(s, Dispatch(c)), c, Running))
            && (p == Running ==> Possible(s, Settle(c)) && InPhase(After(s, Settle(c)), c, Settled))
            && (p == Settled ==> Possible(s, Finish(c)) && InPhase(After(s, Finish(c)), c, Done) && c in After(s, Finish(c)).releases)
            && (p == Owning ==> Possible(s, CreateFails(c)) && InPhase(After(s, CreateFails(c)), c, Done))
  {
    hide SiteInv, Possible, InPhase, After;
    if s.calls[c].phase == Owning { OwnersGoOn(s, c); }
    TasksGoOn(s, c);
  }

  lemma OwnersGoOn(s: Site, c: Call)
    requires SiteInv(s) && c in s.calls && s.calls[c].phase == Owning
    ensures Possible(s, CreateTask(c)) && InPhase(After(s, CreateTask(c)), c, Queued)
    ensures Possible(s, CreateFails(c)) && InPhase(After(s, CreateFails(c)), c, Done)
  {
    hide Inv, Wf, Apply;
    assert CallInv(s, c);
  }

  lemma TasksGoOn(s: Site, c: Call)
    requires SiteInv(s) && c in s.calls
    ensures var p := s.calls[c].phase;
            && (p == Queued ==> Possible(s, Dispatch(c)) && InPhase(After(s, Dispatch(c)), c, Running))
            && (p == Running ==> Possible(s, Settle(c)) && InPhase(After(s, Settle(c)), c, Settled))
            && (p == Settled ==> Possible(s, Finish(c)) && InPhase(After(s, Finish(c)), c, Done) && c in After(s, Finish(c)).releases)
  {
    hide Inv, Wf, Apply;
    assert CallInv(s, c);
  }

  /** A handler can always start a new call, which acquires a free lock at once and waits for a taken one. */
  lemma CallsCanStart(s: Site, c: Call, v: Server, l: LockId)
    requires SiteInv(s) && (v, l) in s.handlers && c !in s.calls
    ensures Possible(s, Start(c, v, l))
    ensures InPhase(After(s, Start(c, v, l)), c, if s.locks[l].core.locked then Acquiring else Owning)
  {
    hide Inv, Wf, Apply;
    assert s.gate[v] == l;
    assert c !in s.locks[l].log.arrivals;
  }

  /** Registering a server makes a handler for its current lock, or for a new one if it has none. */
  lemma RegistrationHandles(s: Site, v: Server, spare: LockId)
    requires Wired(s) && Possible(s, Register(v, spare))
    ensures var t := After(s, Register(v, spare));
            && v in t.gate && (v, t.gate[v]) in t.handlers && t.gate[v] == if v in s.gate then s.gate[v] else spare
  {
  }
}
