/** What the planner finds wrong with its arguments, on the arguments alone. */
module AnchorInput {
  import opened Options
  import opened JsonTree
  import opened Measurement
  import opened AnchorOrder
  import opened AnchorSelection
  import opened AnchorPlan
  import opened AnchorTheorems

  predicate HasText(s: string) {
    exists k :: 0 <= k < |s| && !IsSpace(s[k])
  }

  /** Texts for the id and the platform, a positive finite cost, one of three statuses and, if an uncertainty is given, a
  number from 0 to 1. */
  predicate WellFormed(c: Candidate) {
    && HasText(c.id) && HasText(c.platform) && c.cost.Num? && c.cost.value > 0.0
    && (c.oodStatus == "IN_DOMAIN" || c.oodStatus == "OUT_OF_DOMAIN" || c.oodStatus == "UNKNOWN")
    && (c.uncertainty == None || (c.uncertainty.value.Num? && 0.0 <= c.uncertainty.value.value <= 1.0))
  }

  /** The i-th element is a well-formed candidate with that id. */
  predicate Names(entries: seq<Entry>, i: int, id: string) {
    0 <= i < |entries| && entries[i].Typed? && WellFormed(entries[i].candidate) && entries[i].candidate.id == id
  }

  lemma ValidIsWellFormed(c: Candidate)
    ensures Valid(c) <==> WellFormed(c)
  {
    hide IsSpace;
  }

  /** The i-th element is the first well-formed candidate with the id of `c`, and it is `c`. */
  predicate NamesFirst(entries: seq<Entry>, i: int, c: Candidate) {
    Names(entries, i, c.id) && entries[i].candidate == c && forall k :: 0 <= k < i ==> !Names(entries, k, c.id)
  }

  lemma EarlierNames(entries: seq<Entry>, n: nat, k: int, c: Candidate)
    requires n <= |entries| && k < n
    ensures Names(entries[..n], k, c.id) <==> Names(entries, k, c.id)
    ensures NamesFirst(entries[..n], k, c) <==> NamesFirst(entries, k, c)
  {
    hide WellFormed;
    forall j ensures 0 <= j < n ==> (Names(entries[..n], j, c.id) <==> Names(entries, j, c.id)) { }
  }

  /** Of each id, the first well-formed candidate is kept, and nothing else. */
  lemma {:induction false} KeptAre(entries: seq<Entry>, c: Candidate)
    ensures c in Kept(entries) <==> exists i :: NamesFirst(entries, i, c)
  {
    if entries != [] {
      var n := |entries| - 1;
      var init := entries[..n];
      KeptAre(init, c);
      KeptIds(init, c.id);
      forall k | k < n ensures Names(init, k, c.id) <==> Names(entries, k, c.id) { EarlierNames(entries, n, k, c); }
      forall k | k < n ensures NamesFirst(init, k, c) <==> NamesFirst(entries, k, c) { EarlierNames(entries, n, k, c); }
      LastKept(entries, c);
      assert forall k :: Names(init, k, c.id) ==> k < n;
      hide Kept, Names;
      if Names(entries, n, c.id) && entries[n].candidate == c && c.id !in Ids(Kept(init)) { assert NamesFirst(entries, n, c); }
      if i :| NamesFirst(entries, i, c) { assert Names(entries, i, c.id) && (i < n ==> NamesFirst(init, i, c)); }
      if i :| NamesFirst(init, i, c) { assert Names(init, i, c.id) && NamesFirst(entries, i, c); }
    }
  }

  lemma LastKept(entries: seq<Entry>, c: Candidate)
    requires entries != []
    ensures var n := |entries| - 1;
            var before := Kept(entries[..n]);
            c in Kept(entries) <==> c in before || (Names(entries, n, c.id) && entries[n].candidate == c && c.id !in Ids(before))
  {
    var e := entries[|entries| - 1];
    if e.Typed? { ValidIsWellFormed(e.candidate); }
    hide Valid, WellFormed;
  }

  lemma {:induction false} KeptIds(entries: seq<Entry>, id: string)
    ensures id in Ids(Kept(entries)) <==> exists i :: Names(entries, i, id)
  {
    if entries != [] {
      var n := |entries| - 1;
      KeptIds(entries[..n], id);
      forall k | k < n ensures Names(entries[..n], k, id) <==> Names(entries, k, id) { }
      LastId(entries, id);
      assert forall k :: Names(entries, k, id) ==> k <= n;
      assert forall k :: Names(entries[..n], k, id) ==> k < n;
      hide Kept, Names;
    }
  }

  lemma LastId(entries: seq<Entry>, id: string)
    requires entries != []
    ensures var n := |entries| - 1;
            id in Ids(Kept(entries)) <==> id in Ids(Kept(entries[..n])) || Names(entries, n, id)
  {
    var before, e := Kept(entries[..|entries| - 1]), entries[|entries| - 1];
    if e.Typed? {
      ValidIsWellFormed(e.candidate);
      IdsOfOneMore(before, e.candidate);
    }
    hide Valid, WellFormed, Ids;
  }

  lemma IdsOfOneMore(s: seq<Candidate>, c: Candidate)
    ensures Ids(s + [c]) == Ids(s) + [c.id]
  {
  }

  /** What is wrong with the i-th element: no candidate, an ill-formed one, or the id of an earlier well-formed one. */
  function FaultOf(entries: seq<Entry>, i: int): (fault: Option<PlanReason>)
    requires 0 <= i < |entries|
  {
    if entries[i].Untyped? then Some(CandidateTypeInvalid)
    else if !WellFormed(entries[i].candidate) then Some(CandidateValueInvalid)
    else if exists k :: 0 <= k < i && Names(entries, k, entries[i].candidate.id) then Some(DuplicateAnchorId)
    else None
  }

  /** A reason is recorded while collecting exactly if it is what is wrong with some element. */
  lemma {:induction false} FaultsAre(entries: seq<Entry>, x: PlanReason)
    ensures x in Faults(entries) <==> exists i :: 0 <= i < |entries| && FaultOf(entries, i) == Some(x)
  {
    if entries != [] {
      var n := |entries| - 1;
      FaultsAre(entries[..n], x);
      forall i | 0 <= i < n ensures FaultOf(entries[..n], i) == FaultOf(entries, i) { SameFault(entries, n, i); }
      LastFault(entries);
      FaultsGrow(entries);
      hide Fault, Faults, FaultOf;
    }
  }

  lemma FaultsGrow(entries: seq<Entry>)
    requires entries != []
    ensures var n := |entries| - 1;
            var fault := Fault(Kept(entries[..n]), entries[n]);
            Faults(entries) == Faults(entries[..n]) + if fault.Some? then [fault.value] else []
  {
    hide Fault, Kept;
  }

  lemma SameFault(entries: seq<Entry>, n: nat, i: nat)
    requires i < n <= |entries|
    ensures FaultOf(entries[..n], i) == FaultOf(entries, i)
  {
    hide WellFormed;
    if entries[i].Typed? {
      forall k | k < n ensures Names(entries[..n], k, entries[i].candidate.id) <==> Names(entries, k, entries[i].candidate.id) { }
    }
    hide Names;
  }

  lemma LastFault(entries: seq<Entry>)
    requires entries != []
    ensures var n := |entries| - 1; Fault(Kept(entries[..n]), entries[n]) == FaultOf(entries, n)
  {
    var n := |entries| - 1;
    if entries[n].Typed? {
      ValidIsWellFormed(entries[n].candidate);
      KeptIds(entries[..n], entries[n].candidate.id);
      hide Valid, WellFormed, Kept;
      forall k | k < n ensures Names(entries[..n], k, entries[n].candidate.id) <==> Names(entries, k, entries[n].candidate.id) { }
      assert forall k :: Names(entries[..n], k, entries[n].candidate.id) ==> k < n;
      hide Names;
    }
  }

  /** The reasons that leave a plan blocked. */
  const BLOCKING := {BudgetInvalid, CandidatesInvalid, CandidateTypeInvalid, CandidateValueInvalid, DuplicateAnchorId,
                     PlannedCostOverflow, MandatoryUnavailable}

  /** Every reason of a plan, as a condition on the arguments and on what the plan shows. */
  lemma ReasonsAre(entries: Option<seq<Entry>>, budget: Scalar, ceiling: real)
    ensures var r := Plan(entries, budget, ceiling).reasons;
            && (BudgetInvalid in r <==> !(budget.Num? && budget.value > 0.0))
            && (CandidatesInvalid in r <==> entries.None?)
            && (forall x :: x == CandidateTypeInvalid || x == CandidateValueInvalid || x == DuplicateAnchorId ==>
                  (x in r <==> entries.Some? && exists i :: 0 <= i < |entries.value| && FaultOf(entries.value, i) == Some(x)))
            && (MandatoryUnavailable in r <==>
                  entries.Some? && exists i, c :: NamesFirst(entries.value, i, c) && c.mandatory && !c.available)
  {
    Recorded(entries, budget, ceiling);
    hide Plan, FaultOf, NamesFirst, InputFaults, Chosen;
    GivenAre(entries, budget);
    MissingIsShown(entries, budget, ceiling);
    forall x | x == CandidateTypeInvalid || x == CandidateValueInvalid || x == DuplicateAnchorId
      ensures x in InputFaults(entries, budget) <==>
                entries.Some? && exists i :: 0 <= i < |entries.value| && FaultOf(entries.value, i) == Some(x)
    {
      FaultsAreGiven(entries, budget, x);
      if entries.Some? { FaultsAre(entries.value, x); }
    }
  }

  lemma GivenAre(entries: Option<seq<Entry>>, budget: Scalar)
    ensures var given := InputFaults(entries, budget);
            && (BudgetInvalid in given <==> !(budget.Num? && budget.value > 0.0)) && (CandidatesInvalid in given <==> entries.None?)
            && MandatoryUnavailable !in given
  {
    if entries.Some? { FaultKinds(entries.value); }
    hide Faults;
  }

  lemma FaultsAreGiven(entries: Option<seq<Entry>>, budget: Scalar, x: PlanReason)
    requires x != BudgetInvalid && x != CandidatesInvalid
    ensures x in InputFaults(entries, budget) <==> entries.Some? && x in Faults(entries.value)
  {
    hide Faults;
  }

  lemma MissingIsShown(entries: Option<seq<Entry>>, budget: Scalar, ceiling: real)
    ensures Chosen(entries, budget, ceiling).missing <==>
              entries.Some? && exists i, c :: NamesFirst(entries.value, i, c) && c.mandatory && !c.available
  {
    MissingIsNoticed(entries, budget, ceiling);
    hide Chosen, NamesFirst, Kept;
    if entries.Some? {
      forall c ensures c in Kept(entries.value) <==> exists i :: NamesFirst(entries.value, i, c) { KeptAre(entries.value, c); }
    }
  }

  lemma {:induction false} FaultKinds(entries: seq<Entry>)
    ensures forall x :: x in Faults(entries) ==> x in {CandidateTypeInvalid, CandidateValueInvalid, DuplicateAnchorId}
  {
    if entries != [] {
      FaultKinds(entries[..|entries| - 1]);
      FaultsGrow(entries);
      hide Faults, Kept, Valid, Ids;
    }
  }

  lemma Recorded(entries: Option<seq<Entry>>, budget: Scalar, ceiling: real)
    ensures var p, x, given := Plan(entries, budget, ceiling), Chosen(entries, budget, ceiling), InputFaults(entries, budget);
            forall r :: r in p.reasons <==>
              || r in given || (r == PlannedCostOverflow && x.overflowed != []) || (r == MandatoryUnavailable && x.missing)
              || (r == MandatoryBudgetExceeded && x.over) || (r == NoAnchorFits && !Blocks(given, x) && !x.over && x.selected == [])
  {
    hide Chosen, InputFaults, Unique;
    var x := Chosen(entries, budget, ceiling);
    if x.overflowed != [] { assert Overflows(x)[0] == PlannedCostOverflow; }
  }

  predicate Blocks(given: seq<PlanReason>, x: Choice) {
    given != [] || x.overflowed != [] || x.missing
  }

  /** The status follows from the reasons and the groups shown, and the budget shown is the one given, if that is one. */
  lemma StatusShows(entries: Option<seq<Entry>>, budget: Scalar, ceiling: real)
    ensures var p := Plan(entries, budget, ceiling);
            && p.budget == (if budget.Num? && budget.value > 0.0 then budget.value else 0.0)
            && p.remaining == p.budget - p.planned
            && (NoAnchorFits in p.reasons || MandatoryBudgetExceeded in p.reasons || p.selected != [] || exists r :: r in p.reasons && r in BLOCKING)
            && p.status ==
                 if exists r :: r in p.reasons && r in BLOCKING then EXTERNAL_VERIFICATION_BLOCKED
                 else if MandatoryBudgetExceeded in p.reasons || NoAnchorFits in p.reasons then INSUFFICIENT_BUDGET
                 else if p.skipped != [] then PARTIAL_PLAN
                 else PLAN_READY
  {
    Recorded(entries, budget, ceiling);
    GivenBlocks(entries, budget);
    var p, x, given := Plan(entries, budget, ceiling), Chosen(entries, budget, ceiling), InputFaults(entries, budget);
    hide Chosen, InputFaults, Unique, Overflows;
    if Blocks(given, x) {
      if given != [] { assert given[0] in given && given[0] in p.reasons; }
      assert exists r :: r in p.reasons && r in BLOCKING;
    }
  }

  lemma GivenBlocks(entries: Option<seq<Entry>>, budget: Scalar)
    ensures forall r :: r in InputFaults(entries, budget) ==> r in BLOCKING - {PlannedCostOverflow, MandatoryUnavailable}
  {
    if entries.Some? { FaultKinds(entries.value); }
    hide Faults;
  }
}
