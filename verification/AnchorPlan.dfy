/** Budgeted selection of high-fidelity anchors. `ceiling` is the least sum of costs that is no finite float. */
module AnchorPlan {
  import opened Options
  import opened Statistics
  import opened Measurement
  import opened Sorting
  import opened AnchorOrder
  import opened AnchorSelection

  /** A list element of the caller: a candidate object, or something else. */
  datatype Entry = Typed(candidate: Candidate) | Untyped

  datatype PlanReason =
    | BudgetInvalid | CandidatesInvalid | CandidateTypeInvalid | CandidateValueInvalid | DuplicateAnchorId
    | PlannedCostOverflow | MandatoryUnavailable | MandatoryBudgetExceeded | NoAnchorFits

  datatype PlanStatus = PLAN_READY | PARTIAL_PLAN | INSUFFICIENT_BUDGET | EXTERNAL_VERIFICATION_BLOCKED

  datatype AnchorSelectionPlan = AnchorSelectionPlan(
    status: PlanStatus,
    budget: real,
    selected: seq<string>,
    unavailable: seq<string>,
    skipped: seq<string>,
    planned: real,
    remaining: real,
    reasons: seq<PlanReason>)

  /** The plan as returned, with the hash of its content. */
  datatype Sealed = Sealed(plan: AnchorSelectionPlan, artifactHash: string)

  // ---------------------------------------------------------- collecting input

  /** What is wrong with an element, given the candidates kept before it. */
  function Fault(kept: seq<Candidate>, e: Entry): (r: Option<PlanReason>) {
    if e.Untyped? then Some(CandidateTypeInvalid)
    else if !Valid(e.candidate) then Some(CandidateValueInvalid)
    else if e.candidate.id in Ids(kept) then Some(DuplicateAnchorId)
    else None
  }

  /** Candidates kept, in first-come order. */
  function Kept(entries: seq<Entry>): (r: seq<Candidate>) {
    if entries == [] then []
    else
      var kept, e := Kept(entries[..|entries| - 1]), entries[|entries| - 1];
      if Fault(kept, e).Some? then kept else kept + [e.candidate]
  }

  /** Reasons recorded while collecting. */
  function Faults(entries: seq<Entry>): (r: seq<PlanReason>) {
    if entries == [] then []
    else
      var fault := Fault(Kept(entries[..|entries| - 1]), entries[|entries| - 1]);
      Faults(entries[..|entries| - 1]) + if fault.Some? then [fault.value] else []
  }

  lemma {:induction false} KeptIsClean(entries: seq<Entry>)
    ensures DistinctIds(Kept(entries)) && forall c :: c in Kept(entries) ==> Valid(c)
  {
    if entries != [] {
      var kept := Kept(entries[..|entries| - 1]);
      KeptIsClean(entries[..|entries| - 1]);
      var e := entries[|entries| - 1];
      if Fault(kept, e).None? {
        forall i | 0 <= i < |kept| ensures kept[i].id != e.candidate.id { assert Ids(kept)[i] == kept[i].id; }
      }
    }
  }

  /** Well-formed input: typed, valid, no id twice. */
  predicate CleanInput(entries: seq<Entry>) {
    && (forall i :: 0 <= i < |entries| ==> entries[i].Typed? && Valid(entries[i].candidate))
    && (forall i, j :: 0 <= i < j < |entries| ==> entries[i].Typed? && entries[j].Typed? && entries[i].candidate.id != entries[j].candidate.id)
  }

  function Candidates(entries: seq<Entry>): (r: seq<Candidate>)
    requires forall i :: 0 <= i < |entries| ==> entries[i].Typed?
    ensures |r| == |entries| && forall i :: 0 <= i < |r| ==> r[i] == entries[i].candidate
  {
    seq(|entries|, i requires 0 <= i < |entries| => entries[i].candidate)
  }

  /** Clean input is kept whole and records no reason. */
  lemma {:induction false} CleanIsKept(entries: seq<Entry>)
    requires CleanInput(entries)
    ensures Kept(entries) == Candidates(entries) && Faults(entries) == []
  {
    hide Valid;
    if entries != [] {
      var init, e := entries[..|entries| - 1], entries[|entries| - 1];
      CleanIsKept(init);
      assert Candidates(entries) == Candidates(init) + [e.candidate];
      LastIdIsNew(entries);
      hide CleanInput;
    }
  }

  lemma LastIdIsNew(entries: seq<Entry>)
    requires CleanInput(entries) && entries != []
    ensures entries[|entries| - 1].candidate.id !in Ids(Candidates(entries[..|entries| - 1]))
  {
    hide Valid;
    var init := entries[..|entries| - 1];
    forall i | 0 <= i < |init| ensures Ids(Candidates(init))[i] != entries[|entries| - 1].candidate.id {
      assert entries[i] == init[i];
    }
  }

  // ------------------------------------------------------------------- the plan

  function When(b: bool, r: PlanReason): (q: seq<PlanReason>)
    ensures q == if b then [r] else []
  {
    if b then [r] else []
  }

  lemma Added(s: seq<PlanReason>, b: bool, r: PlanReason)
    ensures s + When(b, r) == if b then s + [r] else s
  {
  }

  /** `tuple(dict.fromkeys(...))`: first occurrences, in order. */
  function Unique(s: seq<PlanReason>): (r: seq<PlanReason>)
    ensures forall x :: x in r <==> x in s
  {
    if s == [] then []
    else
      assert s == s[..|s| - 1] + [s[|s| - 1]];
      var rest := Unique(s[..|s| - 1]);
      if s[|s| - 1] in rest then rest else rest + [s[|s| - 1]]
  }

  predicate BudgetValid(budget: Scalar) {
    budget.Num? && budget.value > 0.0
  }

  function Budget(budget: Scalar): (b: real)
    ensures b >= 0.0
  {
    if BudgetValid(budget) then budget.value else 0.0
  }

  /** What is wrong with the call before any anchor is considered. */
  function InputFaults(entries: Option<seq<Entry>>, budget: Scalar): (r: seq<PlanReason>) {
    When(!BudgetValid(budget), BudgetInvalid) + if entries.Some? then Faults(entries.value) else [CandidatesInvalid]
  }

  function KeptFrom(entries: Option<seq<Entry>>): (r: seq<Candidate>)
    ensures DistinctIds(r) && forall c :: c in r ==> Valid(c)
  {
    if entries.Some? then KeptIsClean(entries.value); Kept(entries.value) else []
  }

  function Chosen(entries: Option<seq<Entry>>, budget: Scalar, ceiling: real): (r: Choice) {
    SortedIsPriced(KeptFrom(entries));
    Select(Sorted(KeptFrom(entries)), Budget(budget), ceiling)
  }

  lemma SortedIsPriced(s: seq<Candidate>)
    requires forall c :: c in s ==> Valid(c)
    ensures Priced(Sorted(s))
  {
    SameMembers(Sorted(s), s);
  }

  /** One reason for each anchor whose cost could not be added. */
  function Overflows(x: Choice): (r: seq<PlanReason>)
    ensures |r| == |x.overflowed|
  {
    seq(|x.overflowed|, _ => PlannedCostOverflow)
  }

  function Finish(faults: seq<PlanReason>, x: Choice, budget: real): (r: AnchorSelectionPlan) {
    var blocked := faults != [] || x.overflowed != [] || x.missing;
    var selected := if blocked then [] else x.selected;
    var spent := if blocked then 0.0 else x.spent;
    var nothing := !blocked && !x.over && selected == [];
    AnchorSelectionPlan(
      if blocked then EXTERNAL_VERIFICATION_BLOCKED
      else if x.over || nothing then INSUFFICIENT_BUDGET
      else if x.skipped != [] then PARTIAL_PLAN
      else PLAN_READY,
      budget, selected, x.unavailable, x.skipped, spent, budget - spent,
      Unique(faults + Overflows(x) + When(x.missing, MandatoryUnavailable) + When(x.over, MandatoryBudgetExceeded) + When(nothing, NoAnchorFits)))
  }

  function Plan(entries: Option<seq<Entry>>, budget: Scalar, ceiling: real): (r: AnchorSelectionPlan) {
    Finish(InputFaults(entries, budget), Chosen(entries, budget, ceiling), Budget(budget))
  }

  function Seal(p: AnchorSelectionPlan, hash: AnchorSelectionPlan -> string): (r: Sealed) {
    Sealed(p, hash(p))
  }

  method CollectCandidates(entries: seq<Entry>) returns (values: seq<Candidate>, reasons: seq<PlanReason>)
    ensures values == Kept(entries) && reasons == Faults(entries)
  {
    values, reasons := [], [];
    var byId := {};
    for i := 0 to |entries|
      invariant values == Kept(entries[..i]) && reasons == Faults(entries[..i])
      invariant forall id :: id in byId <==> id in Ids(values)
    {
      var e := entries[i];
      assert entries[..i + 1][..i] == entries[..i];
      if e.Untyped? {
        reasons := reasons + [CandidateTypeInvalid];
        continue;
      }
      if !Valid(e.candidate) {
        reasons := reasons + [CandidateValueInvalid];
        continue;
      }
      if e.candidate.id in byId {
        reasons := reasons + [DuplicateAnchorId];
        continue;
      }
      byId := byId + {e.candidate.id};
      assert Ids(values + [e.candidate]) == Ids(values) + [e.candidate.id];
      values := values + [e.candidate];
    }
    assert entries[..|entries|] == entries;
  }

  /** The selection loop; `faults` are the reasons recorded before it. */
  method SelectInOrder(ordered: seq<Candidate>, budget: real, ceiling: real, faults: seq<PlanReason>)
    returns (x: Choice, reasons: seq<PlanReason>)
    requires Priced(ordered)
    ensures x == Select(ordered, budget, ceiling) && reasons == faults + Overflows(x)
  {
    var selected, unavailable, skipped, overflowed := [], [], [], [];
    var spent, missing, over := 0.0, false, false;
    reasons := faults;
    for i := 0 to |ordered|
      invariant Priced(ordered[..i])
      invariant Choice(selected, unavailable, skipped, overflowed, spent, missing, over) == Select(ordered[..i], budget, ceiling)
      invariant |reasons| == |faults| + |overflowed| && reasons[..|faults|] == faults
      invariant forall k :: |faults| <= k < |reasons| ==> reasons[k] == PlannedCostOverflow
    {
      var c := ordered[i];
      assert c in ordered;
      assert ordered[..i + 1][..i] == ordered[..i];
      if !c.available {
        unavailable := unavailable + [c.id];
        if c.mandatory { missing := true; }
        continue;
      }
      var next := spent + c.cost.value;
      if next >= ceiling {
        reasons := reasons + [PlannedCostOverflow];
        overflowed := overflowed + [c.id];
        continue;
      }
      if c.mandatory {
        selected := selected + [c.id];
        spent := next;
        if spent > budget { over := true; }
      } else if spent + c.cost.value <= budget {
        selected := selected + [c.id];
        spent := next;
      } else {
        skipped := skipped + [c.id];
      }
    }
    assert ordered[..|ordered|] == ordered;
    x := Choice(selected, unavailable, skipped, overflowed, spent, missing, over);
  }

  method CheckInput(candidates: Option<seq<Entry>>, budgetSeconds: Scalar)
    returns (budget: real, values: seq<Candidate>, reasons: seq<PlanReason>)
    ensures budget == Budget(budgetSeconds)
    ensures values == KeptFrom(candidates) && reasons == InputFaults(candidates, budgetSeconds)
  {
    budget, values, reasons := 0.0, [], [];
    if !budgetSeconds.Num? || budgetSeconds.value <= 0.0 {
      reasons := reasons + [BudgetInvalid];
    } else {
      budget := budgetSeconds.value;
    }
    if candidates.None? {
      reasons := reasons + [CandidatesInvalid];
    } else {
      var faults;
      values, faults := CollectCandidates(candidates.value);
      reasons := reasons + faults;
    }
  }

  /** `select_anchor_plan`. */
  method SelectAnchorPlan(candidates: Option<seq<Entry>>, budgetSeconds: Scalar, ceiling: real, hash: AnchorSelectionPlan -> string)
    returns (sealed: Sealed)
    ensures sealed == Seal(Plan(candidates, budgetSeconds, ceiling), hash)
  {
    var budget, values, faults := CheckInput(candidates, budgetSeconds);
    SortedIsPriced(values);
    var x, reasons := SelectInOrder(Sorted(values), budget, ceiling, faults);
    var plan := BuildPlan(faults, reasons, x, budget);
    sealed := Sealed(plan, hash(plan));
  }

  /** The part after the loop; every reason recorded so far marks the input invalid. */
  method BuildPlan(ghost faults: seq<PlanReason>, recorded: seq<PlanReason>, x: Choice, budget: real)
    returns (plan: AnchorSelectionPlan)
    requires recorded == faults + Overflows(x)
    ensures plan == Finish(faults, x, budget)
  {
    var reasons, inputInvalid := recorded, recorded != [];
    Added(reasons, x.missing, MandatoryUnavailable);
    if x.missing {
      reasons := reasons + [MandatoryUnavailable];
      inputInvalid := true;
    }
    Added(reasons, x.over, MandatoryBudgetExceeded);
    if x.over { reasons := reasons + [MandatoryBudgetExceeded]; }
    var selected, spent := x.selected, x.spent;
    if inputInvalid { selected, spent := [], 0.0; }
    Added(reasons, !inputInvalid && !x.over && selected == [], NoAnchorFits);
    var status;
    if inputInvalid {
      status := EXTERNAL_VERIFICATION_BLOCKED;
    } else if x.over {
      status := INSUFFICIENT_BUDGET;
    } else if selected == [] {
      status := INSUFFICIENT_BUDGET;
      reasons := reasons + [NoAnchorFits];
    } else if x.skipped != [] {
      status := PARTIAL_PLAN;
    } else {
      status := PLAN_READY;
    }
    hide Unique;
    plan := AnchorSelectionPlan(status, budget, selected, x.unavailable, x.skipped, spent, budget - spent, Unique(reasons));
  }

  // ------------------------------------------------------- every plan is well formed

  function Elements<T(==)>(s: seq<T>): (r: set<T>) {
    set x | x in s
  }

  /** `len(value) == len(set(value))`. */
  predicate NoRepeats<T(==)>(s: seq<T>) {
    |Elements(s)| == |s|
  }

  /** The checks of `AnchorSelectionPlan.validate`. */
  predicate SealedValidates(s: Sealed, hash: AnchorSelectionPlan -> string) {
    PlanValidates(s.plan) && IsDigest(s.artifactHash) && s.artifactHash == hash(s.plan)
  }

  predicate PlanValidates(p: AnchorSelectionPlan) {
    && p.budget >= 0.0 && p.planned >= 0.0
    && p.remaining == p.budget - p.planned
    && (forall id :: id in p.selected + p.unavailable + p.skipped ==> !IsBlank(id))
    && NoRepeats(p.selected) && NoRepeats(p.unavailable) && NoRepeats(p.skipped) && NoRepeats(p.reasons)
    && |Elements(p.selected) + Elements(p.unavailable) + Elements(p.skipped)| == |p.selected| + |p.unavailable| + |p.skipped|
  }

  lemma ElementsOfConcat<T>(a: seq<T>, b: seq<T>)
    ensures Elements(a + b) == Elements(a) + Elements(b)
  {
  }

  lemma {:induction false} FewElements<T>(s: seq<T>)
    ensures |Elements(s)| <= |s|
  {
    if s == [] {
      assert Elements(s) == {};
    } else {
      FewElements(s[..|s| - 1]);
      assert Elements(s) == Elements(s[..|s| - 1]) + {s[|s| - 1]};
    }
  }

  /** Two parts without repeats between them have none inside. */
  lemma PartsHaveNoRepeats<T>(a: seq<T>, b: seq<T>)
    requires NoRepeats(a + b)
    ensures NoRepeats(a) && NoRepeats(b)
  {
    ElementsOfConcat(a, b);
    FewElements(a);
    FewElements(b);
    assert |Elements(a) + Elements(b)| <= |Elements(a)| + |Elements(b)|;
  }

  lemma NoRepeatsInAnyOrder<T>(a: seq<T>, b: seq<T>)
    requires multiset(a) == multiset(b) && NoRepeats(a)
    ensures NoRepeats(b)
  {
    assert |multiset(a)| == |a| && |multiset(b)| == |b|;
    assert forall x :: x in a <==> x in multiset(b);
    assert Elements(a) == Elements(b);
  }

  lemma {:induction false} UniqueHasNoRepeats(s: seq<PlanReason>)
    ensures NoRepeats(Unique(s))
  {
    if s == [] {
      assert Elements(Unique(s)) == {};
    } else {
      var rest := Unique(s[..|s| - 1]);
      UniqueHasNoRepeats(s[..|s| - 1]);
      assert Elements(rest + [s[|s| - 1]]) == Elements(rest) + {s[|s| - 1]};
    }
  }

  lemma {:induction false} DistinctIdsDoNotRepeat(s: seq<Candidate>)
    requires DistinctIds(s)
    ensures NoRepeats(Ids(s))
  {
    if s == [] {
      assert Elements(Ids(s)) == {};
    } else {
      var init, last := s[..|s| - 1], s[|s| - 1];
      DistinctIdsDoNotRepeat(init);
      assert Ids(s) == Ids(init) + [last.id];
      assert Elements(Ids(s)) == Elements(Ids(init)) + {last.id};
    }
  }

  lemma LastId(s: seq<Candidate>)
    requires s != []
    ensures multiset(Ids(s)) == multiset(Ids(s[..|s| - 1])) + multiset{s[|s| - 1].id}
  {
    assert Ids(s) == Ids(s[..|s| - 1]) + [s[|s| - 1].id];
  }

  lemma {:induction false} IdsInAnyOrder(a: seq<Candidate>)
    ensures multiset(Ids(Sort(a, Higher))) == multiset(Ids(a))
  {
    if a == [] {
      assert Sort(a, Higher) == a;
    } else {
      IdsInAnyOrder(a[..|a| - 1]);
      InsertAddsId(a[|a| - 1], Sort(a[..|a| - 1], Higher));
      LastId(a);
      hide Ids, Insert;
    }
  }

  lemma {:induction false} InsertAddsId(c: Candidate, s: seq<Candidate>)
    ensures multiset(Ids(Insert(c, s, Higher))) == multiset(Ids(s)) + multiset{c.id}
  {
    hide Higher, Ids;
    FirstId(c, s);
    if s != [] {
      InsertAddsId(c, s[1..]);
      FirstId(s[0], s[1..]);
      FirstId(s[0], Insert(c, s[1..], Higher));
      assert s == [s[0]] + s[1..];
    }
  }

  lemma FirstId(c: Candidate, s: seq<Candidate>)
    ensures multiset(Ids([c] + s)) == multiset(Ids(s)) + multiset{c.id}
  {
    assert Ids([c] + s) == [c.id] + Ids(s);
  }

  /** The groups hold the kept ids, each once. */
  lemma ChosenPartitionsKept(entries: Option<seq<Entry>>, budget: Scalar, ceiling: real)
    ensures var x := Chosen(entries, budget, ceiling);
            && multiset(x.selected + x.unavailable + x.skipped + x.overflowed) == multiset(Ids(KeptFrom(entries)))
            && NoRepeats(x.selected + x.unavailable + x.skipped + x.overflowed)
  {
    var kept, x := KeptFrom(entries), Chosen(entries, budget, ceiling);
    SortedIsPriced(kept);
    GroupsPartition(Sorted(kept), Budget(budget), ceiling);
    IdsInAnyOrder(kept);
    DistinctIdsDoNotRepeat(kept);
    assert multiset(x.selected + x.unavailable + x.skipped + x.overflowed) == Groups(x);
    NoRepeatsInAnyOrder(Ids(kept), x.selected + x.unavailable + x.skipped + x.overflowed);
  }

  lemma GroupsDoNotOverlap(a: seq<string>, b: seq<string>, c: seq<string>)
    requires NoRepeats(a + b + c)
    ensures NoRepeats(a) && NoRepeats(b) && NoRepeats(c)
    ensures |Elements(a) + Elements(b) + Elements(c)| == |a| + |b| + |c|
    ensures |Elements<string>([]) + Elements(b) + Elements(c)| == |b| + |c|
  {
    PartsHaveNoRepeats(a + b, c);
    PartsHaveNoRepeats(a, b);
    assert a + b + c == a + (b + c);
    PartsHaveNoRepeats(a, b + c);
    ElementsOfConcat(a, b);
    ElementsOfConcat(a + b, c);
    ElementsOfConcat(b, c);
    assert Elements<string>([]) == {};
    assert {} + Elements(b) == Elements(b);
  }

  lemma ChosenAreNamed(entries: Option<seq<Entry>>, budget: Scalar, ceiling: real)
    ensures var x := Chosen(entries, budget, ceiling); forall id :: id in x.selected + x.unavailable + x.skipped ==> !IsBlank(id)
  {
    var kept, x := KeptFrom(entries), Chosen(entries, budget, ceiling);
    ChosenPartitionsKept(entries, budget, ceiling);
    forall id | id in x.selected + x.unavailable + x.skipped ensures !IsBlank(id) {
      assert id in multiset(Ids(kept));
      var i :| 0 <= i < |kept| && Ids(kept)[i] == id;
      assert Valid(kept[i]);
    }
  }

  lemma FinishValidates(faults: seq<PlanReason>, x: Choice, budget: real)
    requires NoRepeats(x.selected + x.unavailable + x.skipped) && x.spent >= 0.0 && budget >= 0.0
    requires forall id :: id in x.selected + x.unavailable + x.skipped ==> !IsBlank(id)
    ensures PlanValidates(Finish(faults, x, budget))
  {
    hide NoRepeats, Elements, Unique, IsBlank;
    GroupsDoNotOverlap(x.selected, x.unavailable, x.skipped);
    NothingRepeats();
    var p := Finish(faults, x, budget);
    var nothing := !(faults != [] || x.overflowed != [] || x.missing) && !x.over && x.selected == [];
    UniqueHasNoRepeats(faults + Overflows(x) + When(x.missing, MandatoryUnavailable) + When(x.over, MandatoryBudgetExceeded) + When(nothing, NoAnchorFits));
    forall id | id in p.selected + p.unavailable + p.skipped ensures !IsBlank(id) {
      assert id in x.selected + x.unavailable + x.skipped;
    }
  }

  lemma NothingRepeats()
    ensures NoRepeats<string>([])
  {
    assert Elements<string>([]) == {};
  }

  /** Whatever the input, the plan passes the check made before it is returned. */
  lemma PlanAlwaysValidates(entries: Option<seq<Entry>>, budget: Scalar, ceiling: real, hash: AnchorSelectionPlan -> string)
    requires forall p :: IsDigest(hash(p))
    ensures SealedValidates(Seal(Plan(entries, budget, ceiling), hash), hash)
  {
    var kept, x := KeptFrom(entries), Chosen(entries, budget, ceiling);
    SortedIsPriced(kept);
    SpentGrows(Sorted(kept), Budget(budget), ceiling);
    ChosenPartitionsKept(entries, budget, ceiling);
    PartsHaveNoRepeats(x.selected + x.unavailable + x.skipped, x.overflowed);
    ChosenAreNamed(entries, budget, ceiling);
    FinishValidates(InputFaults(entries, budget), x, Budget(budget));
    hide PlanValidates, IsDigest, Plan;
    assert PlanValidates(Plan(entries, budget, ceiling));
  }
}
