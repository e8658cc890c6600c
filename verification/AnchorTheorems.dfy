/** What a caller of the anchor planner can rely on. */
module AnchorTheorems {
  import JsonTree
  import opened Options
  import opened Statistics
  import opened Measurement
  import opened Sorting
  import opened AnchorOrder
  import opened AnchorSelection
  import opened AnchorPlan

  /** A mandatory anchor that cannot run. */
  ghost predicate MandatoryMissing(s: seq<Candidate>) {
    exists c :: c in s && c.mandatory && !c.available
  }

  // ------------------------------------------------------- exactly what blocks a plan

  lemma CleanPrefix(entries: seq<Entry>)
    requires entries != [] && CleanInput(entries)
    ensures CleanInput(entries[..|entries| - 1])
  {
  }

  lemma {:induction false} FaultlessIsClean(entries: seq<Entry>)
    ensures Faults(entries) == [] <==> CleanInput(entries)
  {
    if CleanInput(entries) { CleanIsKept(entries); }
    if entries != [] && Faults(entries) == [] {
      hide Fault, CleanInput;
      var init, e := entries[..|entries| - 1], entries[|entries| - 1];
      assert Faults(init) == [] && Fault(Kept(init), e).None?;
      FaultlessIsClean(init);
      OneMoreClean(init, e);
      assert entries == init + [e];
    }
  }

  lemma OneMoreClean(init: seq<Entry>, e: Entry)
    requires CleanInput(init) && Fault(Kept(init), e).None?
    ensures CleanInput(init + [e])
  {
    CleanIsKept(init);
    forall i | 0 <= i < |init| ensures init[i].candidate.id != e.candidate.id {
      assert Ids(Kept(init))[i] == init[i].candidate.id;
    }
  }

  /** A call that gets a plan it can act on: a list of valid candidates without duplicates, a
  positive finite budget, every mandatory anchor available, and no sum of costs that overflows. All of it
  speaks of the candidates; the last part takes them in priority order. */
  ghost predicate Sound(entries: Option<seq<Entry>>, budget: Scalar, ceiling: real) {
    && entries.Some? && CleanInput(entries.value) && BudgetValid(budget)
    && !MandatoryMissing(Candidates(entries.value))
    && Addable(Sorted(Candidates(entries.value)), Budget(budget), ceiling)
  }

  /** For a clean list the loop's own record says the same. */
  lemma OverflowIsNoticed(entries: seq<Entry>, budget: Scalar, ceiling: real)
    requires CleanInput(entries)
    ensures Chosen(Some(entries), budget, ceiling).overflowed == [] <==> Addable(Sorted(Candidates(entries)), Budget(budget), ceiling)
  {
    CleanIsKept(entries);
    KeptIsClean(entries);
    SortedIsPriced(Candidates(entries));
    OverflowExactly(Sorted(Candidates(entries)), Budget(budget), ceiling);
    hide Addable, Sorted, Select, CleanInput;
  }

  lemma SortedKeepsMissing(s: seq<Candidate>)
    ensures MandatoryMissing(Sorted(s)) <==> MandatoryMissing(s)
  {
    SameMembers(Sorted(s), s);
  }

  lemma MissingIsNoticed(entries: Option<seq<Entry>>, budget: Scalar, ceiling: real)
    ensures Chosen(entries, budget, ceiling).missing <==> MandatoryMissing(KeptFrom(entries))
  {
    SortedIsPriced(KeptFrom(entries));
    MissingMeansMandatory(Sorted(KeptFrom(entries)), Budget(budget), ceiling);
    SortedKeepsMissing(KeptFrom(entries));
  }

  /** The plan is blocked exactly when the call is not sound, and then it selects and spends nothing. */
  lemma BlockedMeansUnsound(entries: Option<seq<Entry>>, budget: Scalar, ceiling: real)
    ensures var p := Plan(entries, budget, ceiling);
            && (p.status == EXTERNAL_VERIFICATION_BLOCKED <==> !Sound(entries, budget, ceiling))
            && (!Sound(entries, budget, ceiling) ==> p.selected == [] && p.planned == 0.0 && p.remaining == p.budget)
  {
    hide CleanInput, Chosen, MandatoryMissing, Unique, Budget;
    MissingIsNoticed(entries, budget, ceiling);
    FaultlessCall(entries, budget);
    if entries.Some? && CleanInput(entries.value) {
      CleanIsKept(entries.value);
      OverflowIsNoticed(entries.value, budget, ceiling);
    }
  }

  lemma FaultlessCall(entries: Option<seq<Entry>>, budget: Scalar)
    ensures InputFaults(entries, budget) == [] <==> BudgetValid(budget) && entries.Some? && CleanInput(entries.value)
  {
    hide CleanInput;
    if entries.Some? { FaultlessIsClean(entries.value); }
    assert BudgetValid(budget) <==> When(!BudgetValid(budget), BudgetInvalid) == [];
  }

  /** Nothing overflows while the available candidates together cost less than the ceiling. */
  lemma AffordableInputIsAdded(entries: seq<Entry>, budget: Scalar, ceiling: real)
    requires CleanInput(entries) && AvailableCost(Candidates(entries)) < ceiling
    ensures Chosen(Some(entries), budget, ceiling).overflowed == []
  {
    CleanIsKept(entries);
    KeptIsClean(entries);
    SortedIsPriced(Candidates(entries));
    CostInAnyOrder(Candidates(entries), PriceIfAvailable);
    AffordableNeverOverflows(Sorted(Candidates(entries)), Budget(budget), ceiling);
  }

  lemma {:induction false} CostInAnyOrder(s: seq<Candidate>, price: Candidate -> real)
    ensures Cost(Sort(s, Higher), price) == Cost(s, price)
  {
    if s != [] {
      CostInAnyOrder(s[..|s| - 1], price);
      InsertAddsCost(s[|s| - 1], Sort(s[..|s| - 1], Higher), price);
    }
  }

  lemma {:induction false} InsertAddsCost(c: Candidate, s: seq<Candidate>, price: Candidate -> real)
    ensures Cost(Insert(c, s, Higher), price) == Cost(s, price) + price(c)
  {
    hide Higher;
    CostOfFirst([c] + s, price);
    if s != [] {
      CostOfFirst(s, price);
      InsertAddsCost(c, s[1..], price);
      CostOfFirst([s[0]] + Insert(c, s[1..], Higher), price);
    }
  }

  lemma {:induction false} CostOfFirst(s: seq<Candidate>, price: Candidate -> real)
    requires s != []
    ensures Cost(s, price) == price(s[0]) + Cost(s[1..], price)
  {
    if |s| > 1 {
      CostOfFirst(s[..|s| - 1], price);
      assert s[..|s| - 1][1..] == s[1..][..|s| - 2];
    }
  }

  lemma OrderForgotten(s: seq<Candidate>, base: real, ceiling: real)
    requires DistinctIds(s)
    ensures MandatoryFirst(Sorted(s)) && MandatoryCost(Sorted(s)) == MandatoryCost(s)
    ensures FitsBeside(Sorted(s), base, ceiling) <==> FitsBeside(s, base, ceiling)
  {
    SortedDescends(s);
    DescendingStartsMandatory(Sorted(s));
    CostInAnyOrder(s, PriceIfMandatory);
    SameMembers(Sorted(s), s);
  }

  /** What the costs of a clean list alone decide, in any order of the list. */
  lemma OverflowOnInputs(entries: seq<Entry>, budget: Scalar, ceiling: real)
    requires CleanInput(entries) && ceiling > 0.0
    ensures var s, must := Candidates(entries), MandatoryCost(Candidates(entries));
            && (must < ceiling && FitsBeside(s, Larger(Budget(budget), must), ceiling)
                ==> Addable(Sorted(s), Budget(budget), ceiling))
            && (Addable(Sorted(s), Budget(budget), ceiling) ==> must < ceiling && FitsBeside(s, must, ceiling))
  {
    var s := Candidates(entries);
    CleanIsKept(entries);
    KeptIsClean(entries);
    SortedIsPriced(s);
    hide CleanInput, Addable, Sorted, FitsBeside, MandatoryCost, MandatoryFirst, Priced;
    var must := MandatoryCost(s);
    OrderForgotten(s, must, ceiling);
    OrderForgotten(s, Larger(Budget(budget), must), ceiling);
    if must < ceiling && FitsBeside(s, Larger(Budget(budget), must), ceiling) {
      SmallCostsAreAddable(Sorted(s), Budget(budget), ceiling, Larger(Budget(budget), must));
    }
    if Addable(Sorted(s), Budget(budget), ceiling) { AddableCostsAreSmall(Sorted(s), Budget(budget), ceiling); }
  }

  /** When overflow blocks an otherwise sound call: never while the available mandatory total, and each available optional
  cost beside the larger of that total and the budget, stay below the ceiling; always once that total, or an available
  optional cost beside it, reaches the ceiling. Where the mandatory anchors use up the budget the two meet. */
  lemma OverflowBlocks(entries: seq<Entry>, budget: Scalar, ceiling: real)
    requires CleanInput(entries) && BudgetValid(budget) && !MandatoryMissing(Candidates(entries)) && ceiling > 0.0
    ensures var s, must := Candidates(entries), MandatoryCost(Candidates(entries));
            var blocked := Plan(Some(entries), budget, ceiling).status == EXTERNAL_VERIFICATION_BLOCKED;
            && (must < ceiling && FitsBeside(s, Larger(budget.value, must), ceiling) ==> !blocked)
            && (must >= ceiling || !FitsBeside(s, must, ceiling) ==> blocked)
            && (must >= budget.value ==> (blocked <==> must >= ceiling || !FitsBeside(s, must, ceiling)))
  {
    hide CleanInput, MandatoryMissing, Addable, Sorted, FitsBeside, MandatoryCost, Plan;
    BlockedMeansUnsound(Some(entries), budget, ceiling);
    OverflowOnInputs(entries, budget, ceiling);
  }

  // ----------------------------------------------------------- what a sound plan holds

  /** The plan of a sound call shows the loop's outcome unchanged. */
  lemma SoundPlan(entries: seq<Entry>, budget: Scalar, ceiling: real)
    requires Sound(Some(entries), budget, ceiling)
    ensures forall c :: c in Candidates(entries) ==> Valid(c)
    ensures DistinctIds(Candidates(entries)) && Priced(Sorted(Candidates(entries))) && budget.Num?
    ensures var x, p := Select(Sorted(Candidates(entries)), budget.value, ceiling), Plan(Some(entries), budget, ceiling);
            && x.overflowed == []
            && p.selected == x.selected && p.unavailable == x.unavailable && p.skipped == x.skipped
            && p.planned == x.spent && p.budget == budget.value && p.remaining == budget.value - x.spent
            && (p.status == INSUFFICIENT_BUDGET <==> x.over || x.selected == [])
            && (p.status == PARTIAL_PLAN <==> !x.over && x.selected != [] && x.skipped != [])
            && (p.status == PLAN_READY <==> !x.over && x.selected != [] && x.skipped == [])
  {
    CleanIsKept(entries);
    OverflowIsNoticed(entries, budget, ceiling);
    MissingIsNoticed(Some(entries), budget, ceiling);
    SortedIsPriced(KeptFrom(Some(entries)));
    assert InputFaults(Some(entries), budget) == [];
  }

  /** Every candidate is in exactly one of the three groups. */
  lemma PlanPartitionsCandidates(entries: seq<Entry>, budget: Scalar, ceiling: real)
    requires Sound(Some(entries), budget, ceiling)
    ensures var p := Plan(Some(entries), budget, ceiling);
            && multiset(p.selected + p.unavailable + p.skipped) == multiset(Ids(Candidates(entries)))
            && NoRepeats(p.selected + p.unavailable + p.skipped)
  {
    hide Plan, Select, Sorted, NoRepeats, MandatoryMissing, CleanInput, BudgetValid;
    var x := Chosen(Some(entries), budget, ceiling);
    SoundPlan(entries, budget, ceiling);
    CleanIsKept(entries);
    ChosenPartitionsKept(Some(entries), budget, ceiling);
    assert x.selected + x.unavailable + x.skipped + [] == x.selected + x.unavailable + x.skipped;
  }

  lemma LoopSpends(s: seq<Candidate>, budget: real, ceiling: real, prices: map<string, real>)
    requires DistinctIds(s) && Priced(Sorted(s)) && Prices(s, prices) && budget >= 0.0
    requires Select(Sorted(s), budget, ceiling).overflowed == []
    ensures var x, must := Select(Sorted(s), budget, ceiling), MandatoryIds(Sorted(s));
            x.spent == Total(x.selected, prices) && Accounted(x, must, Total(must, prices), budget)
  {
    assert Prices(Sorted(s), prices) by { SameMembers(Sorted(s), s); }
    SortedDescends(s);
    DescendingStartsMandatory(Sorted(s));
    hide *;
    SpentIsSelected(Sorted(s), budget, ceiling, prices);
    OverBudgetIsMandatory(Sorted(s), budget, ceiling, prices);
  }

  /** The planned cost is the summed cost of the selected anchors. It exceeds the budget exactly
  when the available mandatory anchors alone do, and then only they are selected. */
  lemma PlanSpendsWithinBudget(entries: seq<Entry>, budget: Scalar, ceiling: real, prices: map<string, real>)
    requires Sound(Some(entries), budget, ceiling) && Prices(Candidates(entries), prices)
    ensures var p, must := Plan(Some(entries), budget, ceiling), MandatoryIds(Sorted(Candidates(entries)));
            && p.planned == Total(p.selected, prices)
            && (p.planned > budget.value <==> Total(must, prices) > budget.value)
            && (p.planned > budget.value ==> p.selected == must && p.status == INSUFFICIENT_BUDGET)
  {
    assert budget.Num? && budget.value > 0.0;
    SoundPlan(entries, budget, ceiling);
    hide Plan, Select, Sorted, Total, MandatoryIds, Sound, Prices, Priced;
    LoopSpends(Candidates(entries), budget.value, ceiling, prices);
  }

  lemma SkippedInAnyOrder(s: seq<Candidate>, t: seq<Candidate>, id: string, left: real)
    requires multiset(s) == multiset(t) && SkippedRightly(s, id, left)
    ensures SkippedRightly(t, id, left)
  {
    SameMembers(s, t);
    var i: nat :| TooDear(s, i, id, left);
    var c := s[i];
    assert c in s;
    var j: nat :| j < |t| && t[j] == c;
    assert TooDear(t, j, id, left);
  }

  lemma LoopSkipsRightly(s: seq<Candidate>, budget: real, ceiling: real)
    requires Priced(Sorted(s))
    ensures AllSkippedRightly(s, Select(Sorted(s), budget, ceiling).skipped, budget - Select(Sorted(s), budget, ceiling).spent)
  {
    hide Select, Sorted, Priced, SkippedRightly;
    var x := Select(Sorted(s), budget, ceiling);
    NothingSkippedFits(Sorted(s), budget, ceiling);
    forall k | 0 <= k < |x.skipped| ensures SkippedRightly(s, x.skipped[k], budget - x.spent) {
      assert x.skipped[k] in x.skipped;
      SkippedInAnyOrder(Sorted(s), s, x.skipped[k], budget - x.spent);
    }
  }

  ghost predicate AllSkippedRightly(s: seq<Candidate>, ids: seq<string>, left: real) {
    forall k :: 0 <= k < |ids| ==> SkippedRightly(s, ids[k], left)
  }

  /** Each skipped anchor is an available optional candidate that no longer fits the remaining budget. */
  lemma SkippedAnchorsDoNotFit(entries: seq<Entry>, budget: Scalar, ceiling: real)
    requires Sound(Some(entries), budget, ceiling)
    ensures var p := Plan(Some(entries), budget, ceiling); AllSkippedRightly(Candidates(entries), p.skipped, p.remaining)
  {
    hide Plan, Chosen, Select, Sorted, Candidates, Priced, DistinctIds, AllSkippedRightly;
    SoundPlan(entries, budget, ceiling);
    LoopSkipsRightly(Candidates(entries), budget.value, ceiling);
  }

  // --------------------------------------------------- an optional anchor that blocks

  /** A plain available candidate. */
  function Plain(id: string, cost: real, mandatory: bool): (c: Candidate) {
    Candidate(id, "host", Num(cost), mandatory, "UNKNOWN", None, false, false, true)
  }

  lemma TwoAreSorted(a: Candidate, b: Candidate)
    requires a.id != b.id && Below(b, a)
    ensures Sorted([a, b]) == [a, b]
  {
    BelowTotal(a, b);
    hide Below;
    InsertIntoNone(a);
    InsertIntoNone(b);
    assert !Higher(b, a);
    assert [a][1..] == [];
    assert Insert(b, [a], Higher) == [a] + Insert(b, [], Higher);
    hide Insert, Higher;
    assert [a, b][..1] == [a] && [a][..0] == [];
    assert Sort([a], Higher) == [a];
  }

  lemma InsertIntoNone(c: Candidate)
    ensures Insert(c, [], Higher) == [c]
  {
  }

  lemma TwoAreClean(a: Candidate, b: Candidate)
    requires Valid(a) && Valid(b) && a.id != b.id
    ensures CleanInput([Typed(a), Typed(b)]) && Candidates([Typed(a), Typed(b)]) == [a, b]
  {
  }

  /** The overflow test comes before the budget test: an optional anchor that does not fit the budget is
  skipped, unless its cost added to the money spent is no finite float, and then the whole plan is blocked. */
  lemma DearOptionalAnchorBlocks(must: real, extra: real, budget: real, ceiling: real)
    requires 0.0 < must <= budget < must + extra && must < ceiling
    ensures var entries := [Typed(Plain("a", must, true)), Typed(Plain("b", extra, false))];
            var p := Plan(Some(entries), Num(budget), ceiling);
            p.status == (if must + extra < ceiling then PARTIAL_PLAN else EXTERNAL_VERIFICATION_BLOCKED)
  {
    hide CleanInput, Sorted, Select, Candidates, Kept, Faults, Unique, Valid, Priced, Plain;
    TwoAreChosen(must, extra, budget, ceiling);
    FaultlessCall(Some([Typed(Plain("a", must, true)), Typed(Plain("b", extra, false))]), Num(budget));
  }

  lemma PlainIsValid(id: string, cost: real, mandatory: bool)
    requires id in {"a", "b"} && cost > 0.0
    ensures Valid(Plain(id, cost, mandatory))
  {
    assert !JsonTree.IsSpace(id[0]) && !JsonTree.IsSpace("host"[0]);
  }

  lemma TwoAreChosen(must: real, extra: real, budget: real, ceiling: real)
    requires 0.0 < must <= budget < must + extra && must < ceiling
    ensures var entries := [Typed(Plain("a", must, true)), Typed(Plain("b", extra, false))];
            && CleanInput(entries)
            && Chosen(Some(entries), Num(budget), ceiling)
            == if must + extra < ceiling then Choice(["a"], [], ["b"], [], must, false, false)
               else Choice(["a"], [], [], ["b"], must, false, false)
  {
    hide CleanInput, Valid, Consider, Kept, Select, Sorted, Faults;
    PlainIsValid("a", must, true);
    PlainIsValid("b", extra, false);
    TwoAreTaken(Plain("a", must, true), Plain("b", extra, false), Num(budget), ceiling);
    DearIsTurnedDown(must, extra, budget, ceiling);
  }

  lemma DearIsTurnedDown(must: real, extra: real, budget: real, ceiling: real)
    requires 0.0 < must <= budget < must + extra && must < ceiling
    ensures Consider(Consider(Choice([], [], [], [], 0.0, false, false), Plain("a", must, true), budget, ceiling),
                     Plain("b", extra, false), budget, ceiling)
         == if must + extra < ceiling then Choice(["a"], [], ["b"], [], must, false, false)
            else Choice(["a"], [], [], ["b"], must, false, false)
  {
  }

  lemma TwoAreTaken(a: Candidate, b: Candidate, budget: Scalar, ceiling: real)
    requires Valid(a) && Valid(b) && a.id != b.id && Below(b, a)
    ensures CleanInput([Typed(a), Typed(b)])
    ensures Chosen(Some([Typed(a), Typed(b)]), budget, ceiling)
         == Consider(Consider(Choice([], [], [], [], 0.0, false, false), a, Budget(budget), ceiling), b, Budget(budget), ceiling)
  {
    hide Below, Consider, Kept, Faults, Budget;
    TwoAreClean(a, b);
    TwoAreSorted(a, b);
    CleanIsKept([Typed(a), Typed(b)]);
    TwoAreConsidered(a, b, Budget(budget), ceiling);
    hide CleanInput, Sorted, Select, Valid;
  }

  lemma TwoAreConsidered(a: Candidate, b: Candidate, budget: real, ceiling: real)
    requires Priced([a, b])
    ensures Select([a, b], budget, ceiling)
         == Consider(Consider(Choice([], [], [], [], 0.0, false, false), a, budget, ceiling), b, budget, ceiling)
  {
    assert [a, b][..1] == [a] && [a][..0] == [];
    assert Select([a], budget, ceiling) == Consider(Select([], budget, ceiling), a, budget, ceiling);
  }

  // ------------------------------------------------------------------ input order

  lemma CandidatesInAnyOrder(a: seq<Entry>, b: seq<Entry>)
    requires forall i :: 0 <= i < |a| ==> a[i].Typed?
    requires forall i :: 0 <= i < |b| ==> b[i].Typed?
    requires multiset(a) == multiset(b)
    ensures multiset(Candidates(a)) == multiset(Candidates(b))
  {
    forall c ensures multiset(Candidates(a))[c] == multiset(Candidates(b))[c] {
      CandidateCount(a, c);
      CandidateCount(b, c);
    }
  }

  lemma CleanInAnyOrder(a: seq<Entry>, b: seq<Entry>)
    requires CleanInput(a) && multiset(a) == multiset(b)
    ensures CleanInput(b) && multiset(Candidates(a)) == multiset(Candidates(b))
  {
    SameMembers(a, b);
    forall i | 0 <= i < |b| ensures b[i].Typed? && Valid(b[i].candidate) {
      assert b[i] in a;
      var k :| 0 <= k < |a| && a[k] == b[i];
    }
    CandidatesInAnyOrder(a, b);
    assert DistinctIds(Candidates(a));
    PermutationKeepsKeys(Candidates(a), Candidates(b), IdOf);
    forall i, j | 0 <= i < j < |b| ensures b[i].candidate.id != b[j].candidate.id {
      assert Candidates(b)[i].id != Candidates(b)[j].id;
    }
  }

  lemma LastCandidate(s: seq<Entry>)
    requires s != [] && forall i :: 0 <= i < |s| ==> s[i].Typed?
    ensures multiset(Candidates(s)) == multiset(Candidates(s[..|s| - 1])) + multiset{s[|s| - 1].candidate}
    ensures multiset(s) == multiset(s[..|s| - 1]) + multiset{s[|s| - 1]}
  {
    assert s == s[..|s| - 1] + [s[|s| - 1]];
    assert Candidates(s) == Candidates(s[..|s| - 1]) + [s[|s| - 1].candidate];
  }

  lemma {:induction false} CandidateCount(s: seq<Entry>, c: Candidate)
    requires forall i :: 0 <= i < |s| ==> s[i].Typed?
    ensures multiset(Candidates(s))[c] == multiset(s)[Typed(c)]
  {
    if s != [] {
      CandidateCount(s[..|s| - 1], c);
      LastCandidate(s);
    }
  }

  /** The plan of a clean list does not depend on the order of the list. */
  lemma PlanIgnoresInputOrder(a: seq<Entry>, b: seq<Entry>, budget: Scalar, ceiling: real)
    requires CleanInput(a) && multiset(a) == multiset(b)
    ensures Plan(Some(a), budget, ceiling) == Plan(Some(b), budget, ceiling)
  {
    CleanInAnyOrder(a, b);
    CleanIsKept(a);
    CleanIsKept(b);
    KeptIsClean(a);
    KeptIsClean(b);
    SortIgnoresOrder(Candidates(a), Candidates(b));
  }
}
