/** Anchor candidates and the priority order in which they are considered. */
module AnchorOrder {
  import opened Options
  import opened Statistics
  import opened Measurement
  import opened Sorting
  import opened TextOrder

  datatype Candidate = Candidate(
    id: string,
    platform: string,
    cost: Scalar,
    mandatory: bool,
    oodStatus: string,
    uncertainty: Option<Scalar>,
    changedBoundary: bool,
    sentinelDue: bool,
    available: bool)

  const OOD_STATUSES := {"IN_DOMAIN", "OUT_OF_DOMAIN", "UNKNOWN"}

  /** `AnchorCandidate.validate`. */
  predicate Valid(c: Candidate) {
    && !IsBlank(c.id) && !IsBlank(c.platform)
    && c.cost.Num? && c.cost.value > 0.0
    && c.oodStatus in OOD_STATUSES
    && (c.uncertainty.Some? ==> c.uncertainty.value.Num? && 0.0 <= c.uncertainty.value.value <= 1.0)
  }

  /** Uncertainty component of the key: unknown counts as zero. */
  function Doubt(c: Candidate): (r: real) {
    if c.uncertainty.Some? && c.uncertainty.value.Num? then c.uncertainty.value.value else 0.0
  }

  /** The tuple order of `priority_key`. */
  predicate Below(a: Candidate, b: Candidate) {
    if a.mandatory != b.mandatory then b.mandatory
    else if a.changedBoundary != b.changedBoundary then b.changedBoundary
    else if (a.oodStatus == "OUT_OF_DOMAIN") != (b.oodStatus == "OUT_OF_DOMAIN") then b.oodStatus == "OUT_OF_DOMAIN"
    else if a.sentinelDue != b.sentinelDue then b.sentinelDue
    else if Doubt(a) != Doubt(b) then Doubt(a) < Doubt(b)
    else TextLess(a.id, b.id)
  }

  /** The order is strict and total on candidates with different ids. */
  lemma BelowTotal(a: Candidate, b: Candidate)
    ensures a.id != b.id ==> Below(a, b) || Below(b, a)
    ensures !(Below(a, b) && Below(b, a))
  {
    TextTotal(a.id, b.id);
  }

  // ------------------------------------------------------------------ sorting

  predicate DistinctIds(s: seq<Candidate>) {
    forall i, j :: 0 <= i < j < |s| ==> s[i].id != s[j].id
  }

  /** Highest priority first. */
  predicate Descending(s: seq<Candidate>) {
    forall i, j :: 0 <= i < j < |s| ==> Below(s[j], s[i])
  }

  predicate Higher(a: Candidate, b: Candidate) {
    Below(b, a)
  }

  /** `sorted(..., key=priority_key, reverse=True)`. */
  function Sorted(s: seq<Candidate>): (r: seq<Candidate>)
    ensures multiset(r) == multiset(s)
  {
    Sort(s, Higher)
  }

  lemma HigherRanks()
    ensures Ranks(Higher)
  {
    forall a, b ensures Higher(a, b) ==> !Higher(b, a) { BelowTotal(a, b); }
    forall a, b, c ensures Higher(c, a) ==> Higher(b, a) || Higher(c, b) { BelowIsDense(a, b, c); }
  }

  /** A candidate below another is below any third one, or the third is below the other. */
  lemma BelowIsDense(a: Candidate, b: Candidate, c: Candidate)
    ensures Below(a, c) ==> Below(a, b) || Below(b, c)
  {
    TextTotal(a.id, b.id);
    TextTotal(b.id, c.id);
    if TextLess(a.id, c.id) && TextLess(c.id, b.id) { TextTransitive(a.id, c.id, b.id); }
    if TextLess(b.id, a.id) && TextLess(a.id, c.id) { TextTransitive(b.id, a.id, c.id); }
  }

  function IdOf(c: Candidate): (id: string) {
    c.id
  }

  lemma SortedDescends(s: seq<Candidate>)
    requires DistinctIds(s)
    ensures Descending(Sorted(s))
  {
    HigherRanks();
    forall a, b ensures IdOf(a) != IdOf(b) ==> Higher(a, b) || Higher(b, a) { BelowTotal(a, b); }
    SortIsStrict(s, Higher, IdOf);
    var r := Sorted(s);
    forall i, j | 0 <= i < j < |r| ensures Below(r[j], r[i]) { assert Higher(r[i], r[j]); }
  }

  /** Sorting forgets the input order. */
  lemma SortIgnoresOrder(a: seq<Candidate>, b: seq<Candidate>)
    requires DistinctIds(a) && multiset(a) == multiset(b)
    ensures Sorted(a) == Sorted(b)
  {
    PermutationKeepsKeys(a, b, IdOf);
    SortedDescends(a);
    SortedDescends(b);
    HigherRanks();
    SameMembers(Sorted(a), Sorted(b));
    StrictIsUnique(Sorted(a), Sorted(b), Higher);
  }

  function Ids(s: seq<Candidate>): (r: seq<string>)
    ensures |r| == |s| && forall i :: 0 <= i < |r| ==> r[i] == s[i].id
  {
    seq(|s|, i requires 0 <= i < |s| => s[i].id)
  }
}
