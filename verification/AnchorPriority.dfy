/** Which anchors a plan takes, read off the candidates and their ranks alone. */
module AnchorPriority {
  import opened Options
  import opened Statistics
  import opened Measurement
  import opened Sorting
  import opened TextOrder
  import opened AnchorOrder
  import opened AnchorSelection
  import opened AnchorPlan
  import opened AnchorTheorems

  // ------------------------------------------------------------------------ ranks

  function One(b: bool): (r: real) {
    if b then 1.0 else 0.0
  }

  /** The numeric part of `priority_key`: mandatory, changed boundary, out of domain, sentinel due, uncertainty. */
  function Rank(c: Candidate): (key: seq<real>)
    ensures |key| == 5
  {
    [One(c.mandatory), One(c.changedBoundary), One(c.oodStatus == "OUT_OF_DOMAIN"), One(c.sentinelDue),
     if c.uncertainty.Some? && c.uncertainty.value.Num? then c.uncertainty.value.value else 0.0]
  }

  /** `a` comes first: its key is greater at the first number that differs, or, all being equal, its id is greater. */
  predicate Outranks(a: Candidate, b: Candidate) {
    || (exists k :: 0 <= k < 5 && Rank(a)[..k] == Rank(b)[..k] && Rank(a)[k] > Rank(b)[k])
    || (Rank(a) == Rank(b) && TextLess(b.id, a.id))
  }

  lemma FirstNumbers(x: seq<real>, y: seq<real>)
    requires |x| == |y| == 5
    ensures x == y <==> x[0] == y[0] && x[1] == y[1] && x[2] == y[2] && x[3] == y[3] && x[4] == y[4]
    ensures (exists k :: 0 <= k < 5 && x[..k] == y[..k] && x[k] > y[k]) <==>
      || x[0] > y[0] || (x[0] == y[0] && x[1] > y[1]) || (x[0] == y[0] && x[1] == y[1] && x[2] > y[2])
      || (x[0] == y[0] && x[1] == y[1] && x[2] == y[2] && x[3] > y[3])
      || (x[0] == y[0] && x[1] == y[1] && x[2] == y[2] && x[3] == y[3] && x[4] > y[4])
  {
    assert x[..0] == y[..0];
    assert x[0] == y[0] ==> x[..1] == y[..1];
    assert x[0] == y[0] && x[1] == y[1] ==> x[..2] == y[..2];
    assert x[0] == y[0] && x[1] == y[1] && x[2] == y[2] ==> x[..3] == y[..3];
    assert x[0] == y[0] && x[1] == y[1] && x[2] == y[2] && x[3] == y[3] ==> x[..4] == y[..4];
    if k :| 0 <= k < 5 && x[..k] == y[..k] && x[k] > y[k] {
      assert forall i :: 0 <= i < k ==> x[..k][i] == y[..k][i];
    }
  }

  lemma RankDecides(a: Candidate, b: Candidate)
    ensures Below(b, a) <==> Outranks(a, b)
  {
    FirstNumbers(Rank(a), Rank(b));
    assert Doubt(a) == Rank(a)[4] && Doubt(b) == Rank(b)[4];
  }

  predicate Ranked(s: seq<Candidate>) {
    forall i, j :: 0 <= i < j < |s| ==> Outranks(s[i], s[j]) && !Outranks(s[j], s[i])
  }

  /** Candidates are considered by descending rank. */
  lemma SortedIsRanked(s: seq<Candidate>)
    requires DistinctIds(s)
    ensures Ranked(Sorted(s))
  {
    SortedDescends(s);
    var r := Sorted(s);
    forall i, j | 0 <= i < j < |r| ensures Outranks(r[i], r[j]) && !Outranks(r[j], r[i]) {
      BelowTotal(r[j], r[i]);
      RankDecides(r[i], r[j]);
      RankDecides(r[j], r[i]);
    }
  }

  // ------------------------------------------------------------------ what is spent

  lemma {:induction false} CostInParts(a: seq<Candidate>, b: seq<Candidate>, price: Candidate -> real)
    ensures Cost(a + b, price) == Cost(a, price) + Cost(b, price)
  {
    if b == [] {
      assert a + b == a;
    } else {
      assert (a + b)[..|a + b| - 1] == a + b[..|b| - 1];
      CostInParts(a, b[..|b| - 1], price);
    }
  }

  lemma {:induction false} SameCost(s: seq<Candidate>, price: Candidate -> real, other: Candidate -> real)
    requires forall c :: c in s ==> price(c) == other(c)
    ensures Cost(s, price) == Cost(s, other)
  {
    if s != [] {
      assert s[|s| - 1] in s;
      SameCost(s[..|s| - 1], price, other);
    }
  }

  lemma {:induction false} NoCost(s: seq<Candidate>, price: Candidate -> real)
    requires forall c :: c in s ==> price(c) == 0.0
    ensures Cost(s, price) == 0.0
  {
    if s != [] {
      assert s[|s| - 1] in s;
      NoCost(s[..|s| - 1], price);
    }
  }

  /** The price of a candidate that is taken. */
  function IfTaken(taken: seq<string>): (price: Candidate -> real) {
    (d: Candidate) => if d.id in taken then PriceIfAvailable(d) else 0.0
  }

  /** The price of a candidate that is taken and outranks `c`. */
  function IfAhead(taken: seq<string>, c: Candidate): (price: Candidate -> real) {
    (d: Candidate) => if d.id in taken && Outranks(d, c) then PriceIfAvailable(d) else 0.0
  }

  lemma Distinct(s: seq<Candidate>)
    requires DistinctIds(s) && s != []
    ensures DistinctIds(s[..|s| - 1]) && forall c :: c in s[..|s| - 1] ==> c.id != s[|s| - 1].id
  {
  }

  /** The groups name considered candidates only. */
  lemma {:induction false} GroupsNameCandidates(s: seq<Candidate>, budget: real, ceiling: real, id: string)
    requires Priced(s)
    ensures var x := Select(s, budget, ceiling);
            id in x.selected || id in x.skipped || id in x.unavailable ==> exists c :: c in s && c.id == id
  {
    if s != [] {
      Shorter(s);
      GroupsNameCandidates(s[..|s| - 1], budget, ceiling, id);
      assert s[|s| - 1] in s && forall c :: c in s[..|s| - 1] ==> c in s;
    }
  }

  lemma OnlyAdds(x: Choice, c: Candidate, budget: real, ceiling: real, id: string)
    requires c.cost.Num? && id != c.id
    ensures var y := Consider(x, c, budget, ceiling);
            && (id in y.selected <==> id in x.selected) && (id in y.skipped <==> id in x.skipped)
            && (id in y.unavailable <==> id in x.unavailable)
  {
  }

  /** Whether a candidate is taken is decided at its turn. */
  lemma {:induction false} DecidedAtItsTurn(s: seq<Candidate>, budget: real, ceiling: real, i: nat, c: Candidate)
    requires Priced(s) && DistinctIds(s) && i <= |s| && c in s[..i] && Priced(s[..i])
    ensures c.id in Select(s, budget, ceiling).selected <==> c.id in Select(s[..i], budget, ceiling).selected
    ensures c.id in Select(s, budget, ceiling).skipped <==> c.id in Select(s[..i], budget, ceiling).skipped
    ensures c.id in Select(s, budget, ceiling).unavailable <==> c.id in Select(s[..i], budget, ceiling).unavailable
    decreases |s|
  {
    if i == |s| {
      assert s[..i] == s;
    } else {
      Shorter(s);
      Distinct(s);
      assert s[..|s| - 1][..i] == s[..i];
      var k :| 0 <= k < i && s[..i][k] == c;
      assert s[..|s| - 1][k] == c;
      DecidedAtItsTurn(s[..|s| - 1], budget, ceiling, i, c);
      OnlyAdds(Select(s[..|s| - 1], budget, ceiling), s[|s| - 1], budget, ceiling, c.id);
      hide Consider, Priced, DistinctIds;
    }
  }

  lemma {:induction false} SpentIsTaken(s: seq<Candidate>, budget: real, ceiling: real)
    requires Priced(s) && DistinctIds(s)
    ensures var x := Select(s, budget, ceiling); x.spent == Cost(s, IfTaken(x.selected))
  {
    if s != [] {
      var init, c := s[..|s| - 1], s[|s| - 1];
      var x, y := Select(init, budget, ceiling), Select(s, budget, ceiling);
      Shorter(s);
      Distinct(s);
      SpentIsTaken(init, budget, ceiling);
      SameCost(init, IfTaken(x.selected), IfTaken(y.selected));
      GroupsNameCandidates(init, budget, ceiling, c.id);
    }
  }

  /** What was spent before candidate `i` is what the taken candidates that outrank it cost. */
  lemma SpentAhead(s: seq<Candidate>, budget: real, ceiling: real, i: nat)
    requires Priced(s) && DistinctIds(s) && Ranked(s) && i < |s| && Priced(s[..i])
    ensures Select(s[..i], budget, ceiling).spent == Cost(s, IfAhead(Select(s, budget, ceiling).selected, s[i]))
  {
    hide Select, Outranks, PriceIfAvailable, IfTaken, IfAhead, Cost;
    var x, before, c := Select(s, budget, ceiling), Select(s[..i], budget, ceiling), s[i];
    SpentIsTaken(s[..i], budget, ceiling);
    forall d | d in s[..i] ensures IfTaken(before.selected)(d) == IfAhead(x.selected, c)(d) {
      DecidedAtItsTurn(s, budget, ceiling, i, d);
      EarlierIsAhead(s, i, d);
      SamePrice(before.selected, x.selected, c, d);
    }
    SameCost(s[..i], IfTaken(before.selected), IfAhead(x.selected, c));
    forall d | d in s[i..] ensures IfAhead(x.selected, c)(d) == 0.0 {
      LaterIsNotAhead(s, i, d);
      FreeIfBehind(x.selected, c, d);
    }
    NoCost(s[i..], IfAhead(x.selected, c));
    CostInParts(s[..i], s[i..], IfAhead(x.selected, c));
    assert s == s[..i] + s[i..];
  }

  lemma EarlierIsAhead(s: seq<Candidate>, i: nat, d: Candidate)
    requires Ranked(s) && i < |s| && d in s[..i]
    ensures Outranks(d, s[i])
  {
    hide Outranks;
    var k :| 0 <= k < i && s[..i][k] == d;
    assert s[k] == d && Outranks(s[k], s[i]);
  }

  lemma LaterIsNotAhead(s: seq<Candidate>, i: nat, d: Candidate)
    requires Ranked(s) && i < |s| && d in s[i..]
    ensures !Outranks(d, s[i])
  {
    hide Outranks;
    var k :| 0 <= k < |s[i..]| && s[i..][k] == d;
    assert s[i + k] == d;
    if k == 0 { NotAheadOfItself(s[i]); }
  }

  lemma SamePrice(before: seq<string>, taken: seq<string>, c: Candidate, d: Candidate)
    requires Outranks(d, c) && (d.id in before <==> d.id in taken)
    ensures IfTaken(before)(d) == IfAhead(taken, c)(d)
  {
    hide Outranks;
  }

  lemma FreeIfBehind(taken: seq<string>, c: Candidate, d: Candidate)
    requires !Outranks(d, c)
    ensures IfAhead(taken, c)(d) == 0.0
  {
    hide Outranks;
  }

  lemma NotAheadOfItself(c: Candidate)
    ensures !Outranks(c, c)
  {
    RankDecides(c, c);
    BelowTotal(c, c);
  }

  /** Where an available candidate ends up, from the money spent before its turn. */
  lemma TurnDecides(s: seq<Candidate>, budget: real, ceiling: real, i: nat)
    requires Priced(s) && DistinctIds(s) && i < |s| && Priced(s[..i]) && Select(s, budget, ceiling).overflowed == []
    ensures var x, c, before := Select(s, budget, ceiling), s[i], Select(s[..i], budget, ceiling).spent;
            && (c.id in x.unavailable <==> !c.available)
            && (c.id in x.selected <==> c.available && (c.mandatory || before + PriceIfAvailable(c) <= budget))
            && (c.id in x.skipped <==> c.available && !c.mandatory && before + PriceIfAvailable(c) > budget)
  {
    var upTo, c := s[..i + 1], s[i];
    assert upTo[..i] == s[..i] && upTo[i] == c && c in upTo;
    assert forall d :: d in upTo ==> d in s;
    DecidedAtItsTurn(s, budget, ceiling, i + 1, c);
    Distinct(upTo);
    GroupsNameCandidates(s[..i], budget, ceiling, c.id);
    NothingOverflowedBefore(s, budget, ceiling, i + 1);
    assert Select(upTo, budget, ceiling) == Consider(Select(s[..i], budget, ceiling), c, budget, ceiling);
    hide Select, Priced, DistinctIds;
    OneTurn(Select(s[..i], budget, ceiling), c, budget, ceiling);
    hide Consider, PriceIfAvailable;
  }

  lemma OneTurn(x: Choice, c: Candidate, budget: real, ceiling: real)
    requires c.cost.Num? && c.id !in x.selected && c.id !in x.skipped && c.id !in x.unavailable
    requires Consider(x, c, budget, ceiling).overflowed == []
    ensures var y := Consider(x, c, budget, ceiling);
            && (c.id in y.unavailable <==> !c.available)
            && (c.id in y.selected <==> c.available && (c.mandatory || x.spent + PriceIfAvailable(c) <= budget))
            && (c.id in y.skipped <==> c.available && !c.mandatory && x.spent + PriceIfAvailable(c) > budget)
  {
  }

  lemma {:induction false} NothingOverflowedBefore(s: seq<Candidate>, budget: real, ceiling: real, i: nat)
    requires Priced(s) && i <= |s| && Priced(s[..i]) && Select(s, budget, ceiling).overflowed == []
    ensures Select(s[..i], budget, ceiling).overflowed == []
    decreases |s|
  {
    if i == |s| {
      assert s[..i] == s;
    } else {
      NoEarlierOverflow(s, budget, ceiling);
      assert s[..|s| - 1][..i] == s[..i];
      NothingOverflowedBefore(s[..|s| - 1], budget, ceiling, i);
    }
  }

  // -------------------------------------------------------------------- the whole plan

  /** What the taken candidates that outrank `c` cost, in any order of the list. */
  function CostAhead(s: seq<Candidate>, taken: seq<string>, c: Candidate): (r: real) {
    Cost(s, IfAhead(taken, c))
  }

  /** A sound plan, candidate by candidate: what cannot run is unavailable; of the rest, the mandatory ones are taken,
  and an optional one is taken exactly if its cost fits the budget beside what the taken candidates of higher rank cost,
  and is skipped otherwise. */
  lemma PlanIsGreedy(entries: seq<Entry>, budget: Scalar, ceiling: real, c: Candidate)
    requires AnchorTheorems.Sound(Some(entries), budget, ceiling) && c in Candidates(entries)
    ensures var p, s := Plan(Some(entries), budget, ceiling), Candidates(entries);
            var fits := CostAhead(s, p.selected, c) + PriceIfAvailable(c) <= budget.value;
            && (c.id in p.unavailable <==> !c.available)
            && (c.id in p.selected <==> c.available && (c.mandatory || fits))
            && (c.id in p.skipped <==> c.available && !c.mandatory && !fits)
  {
    hide Plan, Select, Sorted, Candidates, MandatoryMissing, Addable, IfAhead, PriceIfAvailable;
    SoundPlan(entries, budget, ceiling);
    LoopIsGreedy(Candidates(entries), budget.value, ceiling, c);
  }

  lemma LoopIsGreedy(s: seq<Candidate>, budget: real, ceiling: real, c: Candidate)
    requires DistinctIds(s) && Priced(Sorted(s)) && Select(Sorted(s), budget, ceiling).overflowed == [] && c in s
    ensures var x := Select(Sorted(s), budget, ceiling);
            var fits := CostAhead(s, x.selected, c) + PriceIfAvailable(c) <= budget;
            && (c.id in x.unavailable <==> !c.available)
            && (c.id in x.selected <==> c.available && (c.mandatory || fits))
            && (c.id in x.skipped <==> c.available && !c.mandatory && !fits)
  {
    var r, x := Sorted(s), Select(Sorted(s), budget, ceiling);
    SortedIsRanked(s);
    PermutationKeepsKeys(s, r, IdOf);
    SameMembers(r, s);
    var i :| 0 <= i < |r| && r[i] == c;
    assert Priced(r[..i]) by { assert forall d :: d in r[..i] ==> d in r; }
    TurnDecides(r, budget, ceiling, i);
    SpentAhead(r, budget, ceiling, i);
    CostInAnyOrder(s, IfAhead(x.selected, c));
    hide Select, Ranked, Priced, IfAhead, PriceIfAvailable;
  }

  // ------------------------------------------------------------- the order of the groups

  /** The group lists ids in the order of `ids`. */
  ghost predicate KeepsOrder(ids: seq<string>, group: seq<string>) {
    forall i, j :: 0 <= i < j < |group| ==> ListedBefore(ids, group[i], group[j])
  }

  lemma OneMoreId(ids: seq<string>, group: seq<string>, id: string)
    requires KeepsOrder(ids, group) && forall a :: a in group ==> a in ids
    ensures KeepsOrder(ids + [id], group) && KeepsOrder(ids + [id], group + [id])
  {
    forall i, j | 0 <= i < j < |group| ensures ListedBefore(ids + [id], group[i], group[j]) { ListedLonger(ids, id, group[i], group[j]); }
    forall i | 0 <= i < |group| ensures ListedBefore(ids + [id], group[i], id) { ListedLonger(ids, id, group[i], id); }
    hide ListedBefore;
  }

  lemma {:induction false} GroupsKeepOrder(s: seq<Candidate>, budget: real, ceiling: real)
    requires Priced(s)
    ensures var x := Select(s, budget, ceiling);
            KeepsOrder(Ids(s), x.selected) && KeepsOrder(Ids(s), x.skipped) && KeepsOrder(Ids(s), x.unavailable)
  {
    hide KeepsOrder;
    NothingToOrder(Ids(s));
    if s != [] {
      var init, c := s[..|s| - 1], s[|s| - 1];
      Shorter(s);
      GroupsKeepOrder(init, budget, ceiling);
      assert Ids(s) == Ids(init) + [c.id];
      var x := Select(init, budget, ceiling);
      forall a | a in x.selected || a in x.skipped || a in x.unavailable ensures a in Ids(init) {
        GroupsNameCandidates(init, budget, ceiling, a);
        var d :| d in init && d.id == a;
        var k :| 0 <= k < |init| && init[k] == d;
        assert Ids(init)[k] == a;
      }
      OneMoreId(Ids(init), x.selected, c.id);
      OneMoreId(Ids(init), x.skipped, c.id);
      OneMoreId(Ids(init), x.unavailable, c.id);
    }
  }

  lemma NothingToOrder(ids: seq<string>)
    ensures KeepsOrder(ids, [])
  {
  }

  /** The groups of a sound plan list their anchors by descending rank. */
  lemma GroupsAreRanked(entries: seq<Entry>, budget: Scalar, ceiling: real, a: Candidate, b: Candidate)
    requires AnchorTheorems.Sound(Some(entries), budget, ceiling) && a in Candidates(entries) && b in Candidates(entries)
    ensures var p := Plan(Some(entries), budget, ceiling);
            ListedBefore(p.selected, a.id, b.id) || ListedBefore(p.skipped, a.id, b.id) || ListedBefore(p.unavailable, a.id, b.id)
            ==> Outranks(a, b)
  {
    hide Plan, Candidates, MandatoryMissing, Addable, Outranks, ListedBefore;
    SoundPlan(entries, budget, ceiling);
    LoopRanksGroups(Candidates(entries), budget.value, ceiling, a, b);
  }

  lemma LoopRanksGroups(s: seq<Candidate>, budget: real, ceiling: real, a: Candidate, b: Candidate)
    requires DistinctIds(s) && Priced(Sorted(s)) && a in s && b in s
    ensures var x := Select(Sorted(s), budget, ceiling);
            ListedBefore(x.selected, a.id, b.id) || ListedBefore(x.skipped, a.id, b.id) || ListedBefore(x.unavailable, a.id, b.id)
            ==> Outranks(a, b)
  {
    hide Outranks, Select;
    var r := Sorted(s);
    GroupsKeepOrder(r, budget, ceiling);
    var x := Select(r, budget, ceiling);
    SortedIsRanked(s);
    PermutationKeepsKeys(s, r, IdOf);
    SameMembers(r, s);
    if ListedBefore(Ids(r), a.id, b.id) {
      var i, j :| 0 <= i < j < |Ids(r)| && Ids(r)[i] == a.id && Ids(r)[j] == b.id;
      SameId(r, i, a);
      SameId(r, j, b);
    }
  }

  lemma SameId(r: seq<Candidate>, i: nat, a: Candidate)
    requires DistinctIds(r) && i < |r| && a in r && r[i].id == a.id
    ensures r[i] == a
  {
  }
}
