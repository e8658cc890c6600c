/** The anchor selection loop: each candidate, in priority order, is put in one of three groups, or turned
down because its cost cannot be added. Sums are exact; those from `ceiling` on are no finite float. */
module AnchorSelection {
  import opened Measurement
  import opened AnchorOrder

  datatype Choice = Choice(
    selected: seq<string>, unavailable: seq<string>, skipped: seq<string>, overflowed: seq<string>,
    spent: real, missing: bool, over: bool)

  predicate Priced(s: seq<Candidate>) {
    forall c :: c in s ==> c.cost.Num? && c.cost.value > 0.0
  }

  lemma Shorter(s: seq<Candidate>)
    requires Priced(s) && s != []
    ensures Priced(s[..|s| - 1]) && s[|s| - 1].cost.Num? && s[|s| - 1].cost.value > 0.0
  {
    assert s[|s| - 1] in s;
    assert forall c :: c in s[..|s| - 1] ==> c in s;
  }

  /** One turn of the selection loop. */
  function Consider(x: Choice, c: Candidate, budget: real, ceiling: real): (r: Choice)
    requires c.cost.Num?
  {
    if !c.available then x.(unavailable := x.unavailable + [c.id], missing := x.missing || c.mandatory)
    else if x.spent + c.cost.value >= ceiling then x.(overflowed := x.overflowed + [c.id])
    else if c.mandatory then
      x.(selected := x.selected + [c.id], spent := x.spent + c.cost.value, over := x.over || x.spent + c.cost.value > budget)
    else if x.spent + c.cost.value <= budget then x.(selected := x.selected + [c.id], spent := x.spent + c.cost.value)
    else x.(skipped := x.skipped + [c.id])
  }

  /** The selection loop as a fold. */
  function Select(ordered: seq<Candidate>, budget: real, ceiling: real): (r: Choice)
    requires Priced(ordered)
  {
    if ordered == [] then Choice([], [], [], [], 0.0, false, false)
    else
      Shorter(ordered);
      Consider(Select(ordered[..|ordered| - 1], budget, ceiling), ordered[|ordered| - 1], budget, ceiling)
  }

  // ---------------------------------------------------- the groups partition

  function Groups(x: Choice): (r: multiset<string>) {
    multiset(x.selected) + multiset(x.unavailable) + multiset(x.skipped) + multiset(x.overflowed)
  }

  lemma OneGroupGrows(x: Choice, c: Candidate, budget: real, ceiling: real)
    requires c.cost.Num?
    ensures Groups(Consider(x, c, budget, ceiling)) == Groups(x) + multiset{c.id}
  {
    hide Groups;
    if !c.available {
      Grown(x, x.(unavailable := x.unavailable + [c.id]), c.id);
      SameGroups(x.(unavailable := x.unavailable + [c.id]), Consider(x, c, budget, ceiling));
    } else if x.spent + c.cost.value >= ceiling {
      Grown(x, x.(overflowed := x.overflowed + [c.id]), c.id);
    } else if c.mandatory || x.spent + c.cost.value <= budget {
      Grown(x, x.(selected := x.selected + [c.id]), c.id);
      SameGroups(x.(selected := x.selected + [c.id]), Consider(x, c, budget, ceiling));
    } else {
      Grown(x, x.(skipped := x.skipped + [c.id]), c.id);
    }
  }

  lemma SameGroups(x: Choice, y: Choice)
    requires x.selected == y.selected && x.unavailable == y.unavailable && x.skipped == y.skipped && x.overflowed == y.overflowed
    ensures Groups(x) == Groups(y)
  {
  }

  lemma Grown(x: Choice, y: Choice, id: string)
    requires || y == x.(selected := x.selected + [id])
             || y == x.(unavailable := x.unavailable + [id])
             || y == x.(skipped := x.skipped + [id])
             || y == x.(overflowed := x.overflowed + [id])
    ensures Groups(y) == Groups(x) + multiset{id}
  {
  }

  /** Each id lands in exactly one group, as often as it is considered. */
  lemma {:induction false} GroupsPartition(s: seq<Candidate>, budget: real, ceiling: real)
    requires Priced(s)
    ensures Groups(Select(s, budget, ceiling)) == multiset(Ids(s))
  {
    if s == [] {
      assert Ids(s) == [];
    } else {
      Shorter(s);
      GroupsPartition(s[..|s| - 1], budget, ceiling);
      OneGroupGrows(Select(s[..|s| - 1], budget, ceiling), s[|s| - 1], budget, ceiling);
      assert Ids(s) == Ids(s[..|s| - 1]) + [s[|s| - 1].id];
      hide Groups, Consider;
    }
  }

  // -------------------------------------------------------------------- spending

  /** `prices` lists the cost of every candidate under its id. */
  predicate Prices(s: seq<Candidate>, prices: map<string, real>) {
    forall c :: c in s ==> c.id in prices && c.cost == Num(prices[c.id])
  }

  /** What the anchors with these ids cost together. */
  function Total(ids: seq<string>, prices: map<string, real>): (r: real) {
    if ids == [] then 0.0
    else Total(ids[..|ids| - 1], prices) + if ids[|ids| - 1] in prices then prices[ids[|ids| - 1]] else 0.0
  }

  lemma TotalOfOneMore(ids: seq<string>, id: string, prices: map<string, real>)
    requires id in prices
    ensures Total(ids + [id], prices) == Total(ids, prices) + prices[id]
  {
    assert (ids + [id])[..|ids|] == ids;
  }

  /** The loop's running cost is the cost of what it selected. */
  lemma {:induction false} SpentIsSelected(s: seq<Candidate>, budget: real, ceiling: real, prices: map<string, real>)
    requires Priced(s) && Prices(s, prices)
    ensures Select(s, budget, ceiling).spent == Total(Select(s, budget, ceiling).selected, prices)
  {
    if s != [] {
      var init, c := s[..|s| - 1], s[|s| - 1];
      Shorter(s);
      assert c in s && Prices(init, prices);
      SpentIsSelected(init, budget, ceiling, prices);
      TotalOfOneMore(Select(init, budget, ceiling).selected, c.id, prices);
    }
  }

  /** The anchors that must run and can. */
  function MandatoryIds(s: seq<Candidate>): (r: seq<string>) {
    if s == [] then []
    else
      var c := s[|s| - 1];
      if c.mandatory && c.available then MandatoryIds(s[..|s| - 1]) + [c.id] else MandatoryIds(s[..|s| - 1])
  }

  predicate MandatoryFirst(s: seq<Candidate>) {
    forall i, j :: 0 <= i < j < |s| && s[j].mandatory ==> s[i].mandatory
  }

  predicate AllMandatory(s: seq<Candidate>) {
    forall c :: c in s ==> c.mandatory
  }

  lemma DescendingStartsMandatory(s: seq<Candidate>)
    requires Descending(s)
    ensures MandatoryFirst(s)
  {
  }

  /** While only mandatory anchors were considered, exactly they are selected, whatever they cost. */
  lemma {:induction false} MandatoryAreTaken(s: seq<Candidate>, budget: real, ceiling: real)
    requires Priced(s) && AllMandatory(s) && Select(s, budget, ceiling).overflowed == []
    ensures Select(s, budget, ceiling).selected == MandatoryIds(s) && Select(s, budget, ceiling).skipped == []
  {
    if s != [] {
      Shorter(s);
      assert s[|s| - 1] in s && AllMandatory(s[..|s| - 1]);
      NoEarlierOverflow(s, budget, ceiling);
      MandatoryAreTaken(s[..|s| - 1], budget, ceiling);
    }
  }

  lemma {:induction false} SpentGrows(s: seq<Candidate>, budget: real, ceiling: real)
    requires Priced(s)
    ensures Select(s, budget, ceiling).spent >= 0.0
  {
    if s != [] {
      Shorter(s);
      SpentGrows(s[..|s| - 1], budget, ceiling);
    }
  }

  /** The over-budget flag, the money spent and the mandatory anchors tell one story. */
  predicate Accounted(x: Choice, mandatory: seq<string>, total: real, budget: real) {
    && (x.over <==> total > budget)
    && (x.over <==> x.spent > budget)
    && (x.over ==> x.selected == mandatory)
  }

  lemma MandatoryStep(x: Choice, c: Candidate, total: real, budget: real, ceiling: real)
    requires c.mandatory && c.available && c.cost.Num? && c.cost.value > 0.0
    requires Accounted(x, x.selected, total, budget) && x.spent == total && total + c.cost.value < ceiling
    ensures Accounted(Consider(x, c, budget, ceiling), x.selected + [c.id], total + c.cost.value, budget)
  {
  }

  lemma OptionalStep(x: Choice, c: Candidate, mandatory: seq<string>, total: real, budget: real, ceiling: real)
    requires !(c.mandatory && c.available) && c.cost.Num? && c.cost.value > 0.0
    requires Accounted(x, mandatory, total, budget) && Consider(x, c, budget, ceiling).overflowed == []
    ensures Accounted(Consider(x, c, budget, ceiling), mandatory, total, budget)
  {
  }

  lemma PrefixIsMandatory(s: seq<Candidate>)
    requires MandatoryFirst(s) && s != [] && s[|s| - 1].mandatory
    ensures AllMandatory(s[..|s| - 1])
  {
    var init := s[..|s| - 1];
    forall d | d in init ensures d.mandatory {
      var i :| 0 <= i < |init| && init[i] == d;
      assert s[i].mandatory;
    }
  }

  lemma PrefixStaysOrdered(s: seq<Candidate>)
    requires MandatoryFirst(s) && s != []
    ensures MandatoryFirst(s[..|s| - 1])
  {
  }

  lemma PrefixStaysPriced(s: seq<Candidate>, prices: map<string, real>)
    requires Prices(s, prices) && s != []
    ensures Prices(s[..|s| - 1], prices) && s[|s| - 1].id in prices && s[|s| - 1].cost == Num(prices[s[|s| - 1].id])
  {
    assert s[|s| - 1] in s;
  }

  /** The budget is exceeded only by the mandatory anchors alone; the flag says so exactly. */
  lemma {:induction false} OverBudgetIsMandatory(s: seq<Candidate>, budget: real, ceiling: real, prices: map<string, real>)
    requires Priced(s) && Prices(s, prices) && MandatoryFirst(s) && budget >= 0.0
    requires Select(s, budget, ceiling).overflowed == []
    ensures Accounted(Select(s, budget, ceiling), MandatoryIds(s), Total(MandatoryIds(s), prices), budget)
  {
    if s != [] {
      var init, c := s[..|s| - 1], s[|s| - 1];
      Shorter(s);
      PrefixStaysPriced(s, prices);
      PrefixStaysOrdered(s);
      NoEarlierOverflow(s, budget, ceiling);
      OverBudgetIsMandatory(init, budget, ceiling, prices);
      var x := Select(init, budget, ceiling);
      if c.mandatory && c.available {
        PrefixIsMandatory(s);
        MandatoryAreTaken(init, budget, ceiling);
        SpentIsSelected(init, budget, ceiling, prices);
        TotalOfOneMore(x.selected, c.id, prices);
        MandatoryStep(x, c, x.spent, budget, ceiling);
      } else {
        OptionalStep(x, c, MandatoryIds(init), Total(MandatoryIds(init), prices), budget, ceiling);
      }
      hide Priced, Prices, MandatoryFirst, AllMandatory, Accounted, Consider, Total;
    }
  }

  // ------------------------------------------------------------------- overflow

  lemma NoEarlierOverflow(s: seq<Candidate>, budget: real, ceiling: real)
    requires Priced(s) && s != [] && Select(s, budget, ceiling).overflowed == []
    ensures Priced(s[..|s| - 1]) && Select(s[..|s| - 1], budget, ceiling).overflowed == []
  {
    Shorter(s);
  }

  /** What the candidates cost together, each at its price. */
  function Cost(s: seq<Candidate>, price: Candidate -> real): (r: real) {
    if s == [] then 0.0 else Cost(s[..|s| - 1], price) + price(s[|s| - 1])
  }

  function PriceIfAvailable(c: Candidate): (cost: real) {
    if c.available && c.cost.Num? then c.cost.value else 0.0
  }

  function PriceIfMandatory(c: Candidate): (cost: real) {
    if c.mandatory then PriceIfAvailable(c) else 0.0
  }

  /** What all available candidates cost together. */
  function AvailableCost(s: seq<Candidate>): (r: real) {
    Cost(s, PriceIfAvailable)
  }

  /** What the anchors that must run and can cost together. */
  function MandatoryCost(s: seq<Candidate>): (r: real) {
    Cost(s, PriceIfMandatory)
  }

  /** Nothing overflows while all available candidates together cost less than the ceiling. */
  lemma {:induction false} AffordableNeverOverflows(s: seq<Candidate>, budget: real, ceiling: real)
    requires Priced(s) && AvailableCost(s) < ceiling
    ensures Select(s, budget, ceiling).overflowed == [] && Select(s, budget, ceiling).spent <= AvailableCost(s)
  {
    if s != [] {
      Shorter(s);
      AffordableNeverOverflows(s[..|s| - 1], budget, ceiling);
    }
  }

  /** What is spent behind these candidates when every sum is a number: mandatory anchors always, optional ones that fit. */
  function Running(s: seq<Candidate>, budget: real): (spent: real) {
    if s == [] then 0.0
    else
      var c, before := s[|s| - 1], Running(s[..|s| - 1], budget);
      if c.mandatory || before + PriceIfAvailable(c) <= budget then before + PriceIfAvailable(c) else before
  }

  /** Every available candidate's cost, added to what is spent before it, stays below the ceiling. */
  predicate Addable(s: seq<Candidate>, budget: real, ceiling: real) {
    forall i :: 0 <= i < |s| && s[i].available ==> Running(s[..i], budget) + PriceIfAvailable(s[i]) < ceiling
  }

  lemma AddableSnoc(s: seq<Candidate>, budget: real, ceiling: real)
    requires s != []
    ensures Addable(s, budget, ceiling) <==>
      && Addable(s[..|s| - 1], budget, ceiling)
      && (s[|s| - 1].available ==> Running(s[..|s| - 1], budget) + PriceIfAvailable(s[|s| - 1]) < ceiling)
  {
    hide Running, PriceIfAvailable;
    var n := |s| - 1;
    assert forall i :: 0 <= i < n ==> s[..n][i] == s[i] && s[..n][..i] == s[..i];
  }

  /** The loop meets no overflow exactly when every cost is addable. */
  lemma {:induction false} OverflowExactly(s: seq<Candidate>, budget: real, ceiling: real)
    requires Priced(s)
    ensures Select(s, budget, ceiling).overflowed == [] <==> Addable(s, budget, ceiling)
    ensures Addable(s, budget, ceiling) ==> Select(s, budget, ceiling).spent == Running(s, budget)
  {
    if s != [] {
      Shorter(s);
      OverflowExactly(s[..|s| - 1], budget, ceiling);
      AddableSnoc(s, budget, ceiling);
      hide Addable;
    }
  }

  // ------------------------------------------------- overflow from the costs alone

  function Larger(a: real, b: real): (r: real)
    ensures r >= a && r >= b && (r == a || r == b)
  {
    if a < b then b else a
  }

  /** Each available optional candidate, together with `base`, stays below the ceiling. */
  predicate FitsBeside(s: seq<Candidate>, base: real, ceiling: real) {
    forall c :: c in s && c.available && !c.mandatory ==> base + PriceIfAvailable(c) < ceiling
  }

  lemma FitsBesideSnoc(s: seq<Candidate>, base: real, ceiling: real)
    requires s != []
    ensures FitsBeside(s, base, ceiling) <==>
      && FitsBeside(s[..|s| - 1], base, ceiling)
      && (s[|s| - 1].available && !s[|s| - 1].mandatory ==> base + PriceIfAvailable(s[|s| - 1]) < ceiling)
  {
    hide PriceIfAvailable;
    assert s == s[..|s| - 1] + [s[|s| - 1]];
  }

  lemma {:induction false} MandatoryRun(s: seq<Candidate>, budget: real)
    requires AllMandatory(s)
    ensures Running(s, budget) == MandatoryCost(s)
  {
    if s != [] {
      assert s[|s| - 1] in s && AllMandatory(s[..|s| - 1]);
      MandatoryRun(s[..|s| - 1], budget);
    }
  }

  /** The spending lies between the mandatory total and the larger of that and the budget. */
  lemma {:induction false} RunningBounds(s: seq<Candidate>, budget: real)
    requires Priced(s) && MandatoryFirst(s) && budget >= 0.0
    ensures 0.0 <= MandatoryCost(s) <= Running(s, budget) <= Larger(budget, MandatoryCost(s))
  {
    if s != [] {
      Shorter(s);
      PrefixStaysOrdered(s);
      RunningBounds(s[..|s| - 1], budget);
      if s[|s| - 1].mandatory {
        PrefixIsMandatory(s);
        MandatoryRun(s[..|s| - 1], budget);
      }
    }
  }

  /** No sum overflows when the mandatory total does not, and no optional cost does beside the larger of that total and
  the budget. */
  lemma {:induction false} SmallCostsAreAddable(s: seq<Candidate>, budget: real, ceiling: real, base: real)
    requires Priced(s) && MandatoryFirst(s) && budget >= 0.0
    requires MandatoryCost(s) < ceiling && base >= Larger(budget, MandatoryCost(s)) && FitsBeside(s, base, ceiling)
    ensures Addable(s, budget, ceiling)
  {
    if s != [] {
      var init, c := s[..|s| - 1], s[|s| - 1];
      Shorter(s);
      PrefixStaysOrdered(s);
      RunningBounds(init, budget);
      FitsBesideSnoc(s, base, ceiling);
      AddableSnoc(s, budget, ceiling);
      SmallCostsAreAddable(init, budget, ceiling, base);
      if c.mandatory {
        PrefixIsMandatory(s);
        MandatoryRun(init, budget);
      }
      hide Addable, FitsBeside, MandatoryFirst, Priced, Running;
    }
  }

  /** Where no sum overflows, neither does the mandatory total, nor any optional cost beside it. */
  lemma {:induction false} AddableCostsAreSmall(s: seq<Candidate>, budget: real, ceiling: real)
    requires Priced(s) && MandatoryFirst(s) && budget >= 0.0 && ceiling > 0.0 && Addable(s, budget, ceiling)
    ensures MandatoryCost(s) < ceiling && FitsBeside(s, MandatoryCost(s), ceiling)
  {
    if s != [] {
      var init, c := s[..|s| - 1], s[|s| - 1];
      Shorter(s);
      PrefixStaysOrdered(s);
      RunningBounds(init, budget);
      AddableSnoc(s, budget, ceiling);
      AddableCostsAreSmall(init, budget, ceiling);
      FitsBesideSnoc(s, MandatoryCost(s), ceiling);
      if c.mandatory {
        PrefixIsMandatory(s);
        MandatoryRun(init, budget);
      }
      hide Addable, MandatoryFirst, Priced, Running;
    }
  }

  // -------------------------------------------------------------------- skipping

  /** Candidate `i` is optional, carries `id` and costs more than `left`. */
  predicate TooDear(s: seq<Candidate>, i: nat, id: string, left: real) {
    i < |s| && s[i].id == id && s[i].available && !s[i].mandatory && s[i].cost.Num? && s[i].cost.value > left
  }

  ghost predicate SkippedRightly(s: seq<Candidate>, id: string, left: real) {
    exists i :: TooDear(s, i, id, left)
  }

  lemma StillTooDear(s: seq<Candidate>, id: string, left: real, less: real)
    requires s != [] && SkippedRightly(s[..|s| - 1], id, left) && less <= left
    ensures SkippedRightly(s, id, less)
  {
    var i :| TooDear(s[..|s| - 1], i, id, left);
    assert TooDear(s, i, id, less);
  }

  /** Every skipped anchor is optional and does not fit what is left at the end. */
  lemma {:induction false} NothingSkippedFits(s: seq<Candidate>, budget: real, ceiling: real)
    requires Priced(s)
    ensures forall id :: id in Select(s, budget, ceiling).skipped ==> SkippedRightly(s, id, budget - Select(s, budget, ceiling).spent)
  {
    if s != [] {
      Shorter(s);
      var x, y := Select(s[..|s| - 1], budget, ceiling), Select(s, budget, ceiling);
      NothingSkippedFits(s[..|s| - 1], budget, ceiling);
      forall id | id in y.skipped ensures SkippedRightly(s, id, budget - y.spent) {
        if id in x.skipped {
          StillTooDear(s, id, budget - x.spent, budget - y.spent);
        } else {
          assert TooDear(s, |s| - 1, id, budget - y.spent);
        }
      }
    }
  }

  /** The loop notices a mandatory anchor that cannot run. */
  lemma {:induction false} MissingMeansMandatory(s: seq<Candidate>, budget: real, ceiling: real)
    requires Priced(s)
    ensures Select(s, budget, ceiling).missing <==> exists c :: c in s && c.mandatory && !c.available
  {
    if s != [] {
      Shorter(s);
      var init, last := s[..|s| - 1], s[|s| - 1];
      MissingMeansMandatory(init, budget, ceiling);
      assert forall c :: c in s <==> c in init || c == last;
    }
  }
}
