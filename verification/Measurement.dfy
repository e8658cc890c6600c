/** Sequential measurement: one checkpoint evaluation and the append-only session around it.

Numbers are exact reals. What the source takes from outside its own arithmetic is an
`Environment`: the square root, the normal quantile, hashing, and the verdict whether the
statistics of given block means overflow in floating point. */
module Measurement {
  import opened Options
  import opened Statistics
  import JsonTree

  /** A numeric field or observation; NonFinite covers NaN, infinities and non-numbers. */
  datatype Scalar = Num(value: real) | NonFinite

  datatype Flag = Text(s: string) | NotText

  datatype Status = PASS | FAIL | CONTINUE | UNSTABLE | CONTAMINATED | INSUFFICIENT_EVIDENCE

  datatype Reason =
    | ObservationsInvalid | WarmupsInvalid | FlagsInvalid | ProtocolInvalid | ContaminationDetected
    | NonFiniteObservation | InsufficientWarmups | BudgetExceeded | InsufficientObservations
    | IncompleteFinalBlock | AutocorrelationExceedsBound | DriftExceedsBound | NumericOverflow
    | BaselineInvalid | PrecisionNotMet | BaselineNotCleared

  /** Integer fields that are not integers behave like negative ones: refused by `validate`,
      replaced by the fallback elsewhere. */
  datatype Spec = Spec(
    typed: bool,
    metric: string,
    estimand: string,
    direction: string,
    alpha: Scalar,
    warmupCount: int,
    minObservations: int,
    blockSize: int,
    maxObservations: int,
    relativePrecision: Scalar,
    absolutePrecision: Option<Scalar>,
    maxLag: Scalar,
    maxDrift: Scalar)

  /** Where the floating-point statistics of a checkpoint stop being finite, if they do: before
      the stability reasons are recorded, or at the later test, with whatever stability reasons the
      non-finite numbers have led to by then. */
  datatype Overflow = Fits | Early | Late(lagReason: bool, driftReason: bool)

  datatype Body = Body(
    protocolHash: string,
    status: Status,
    metric: string,
    estimate: Option<real>,
    ciLow: Option<real>,
    ciHigh: Option<real>,
    precision: Option<real>,
    lag: Option<real>,
    drift: Option<real>,
    rawCount: nat,
    count: nat,
    blockCount: nat,
    warmups: nat,
    rawHash: string,
    flags: seq<string>,
    reasons: seq<Reason>)

  datatype Result = Result(body: Body, estimand: string, artifactHash: string)

  datatype Environment = Environment(
    root: real -> real,
    quantile: real -> real,
    overflow: seq<real> -> Overflow,
    specHash: Spec -> string,
    rawHash: (seq<Scalar>, seq<Scalar>) -> string,
    bodyHash: Body -> string)

  predicate IsDigest(s: string) {
    && |s| == 64
    && (forall i :: 0 <= i < 64 ==> '0' <= s[i] <= '9' || 'a' <= s[i] <= 'f')
    && exists i :: 0 <= i < 64 && s[i] != '0'
  }

  ghost predicate Sound(env: Environment) {
    && IsRoot(env.root)
    && (forall a: real :: 0.0 < a < 0.5 ==> env.quantile(a) > 0.0)
    && (forall s :: IsDigest(env.specHash(s)))
    && (forall o, w :: IsDigest(env.rawHash(o, w)))
    && (forall b :: IsDigest(env.bodyHash(b)))
  }

  predicate IsBlank(s: string) {
    forall i :: 0 <= i < |s| ==> JsonTree.IsSpace(s[i])
  }

  predicate Within(x: Scalar, lo: real, hi: real) {
    x.Num? && lo < x.value < hi
  }

  const DIRECTIONS := {"higher_is_better", "lower_is_better"}

  /** `AdaptiveMeasurementSpec.validate`, for a spec of the canonical type. */
  predicate SpecValid(s: Spec) {
    && s.typed && !IsBlank(s.metric) && s.estimand == "mean" && s.direction in DIRECTIONS
    && Within(s.alpha, 0.0, 0.5)
    && s.warmupCount >= 0 && s.minObservations >= 30 && 1 <= s.blockSize <= s.minObservations / 3
    && s.maxObservations >= s.minObservations
    && Within(s.relativePrecision, 0.0, 1.0) && Within(s.maxLag, 0.0, 1.0) && Within(s.maxDrift, 0.0, 1.0)
    && (s.absolutePrecision.Some? ==> s.absolutePrecision.value.Num? && s.absolutePrecision.value.value > 0.0)
  }

  // ---------------------------------------------------- effective parameters

  function Alpha(s: Spec): (a: real)
    ensures 0.0 < a < 0.5
  {
    if s.typed && Within(s.alpha, 0.0, 0.5) then s.alpha.value else 0.05
  }

  function Natural(s: Spec, field: int): (r: nat) {
    if s.typed && field >= 0 then field else 0
  }

  function BlockSize(s: Spec): (b: nat)
    ensures b >= 1
  {
    if s.typed && s.blockSize > 0 then s.blockSize else 1
  }

  /** An upper bound, or None where the source falls back to infinity. */
  function Bound(s: Spec, field: Scalar): (r: Option<real>) {
    if s.typed && Within(field, 0.0, 1.0) then Some(field.value) else None
  }

  function AbsoluteBound(s: Spec): (r: Option<real>) {
    if s.typed && s.absolutePrecision.Some? && s.absolutePrecision.value.Num? && s.absolutePrecision.value.value > 0.0
    then Some(s.absolutePrecision.value.value) else None
  }

  predicate AtMost(x: real, bound: Option<real>) {
    bound.None? || x <= bound.value
  }

  function Direction(s: Spec): (r: string) {
    if s.typed && s.direction in DIRECTIONS then s.direction else "lower_is_better"
  }

  /** The alpha one checkpoint may spend: an equal share for every in-budget count. */
  function CheckpointAlpha(s: Spec): (a: real)
    ensures 0.0 < a < 0.5
  {
    var maximum := Natural(s, s.maxObservations);
    Alpha(s) / (if maximum > 1 then maximum else 1) as real
  }

  // ---------------------------------------------------------------- the data

  function Finites(raw: seq<Scalar>): (r: seq<real>)
    ensures |r| <= |raw|
    ensures |r| == |raw| <==> forall i :: 0 <= i < |raw| ==> raw[i].Num?
  {
    if raw == [] then []
    else Finites(raw[..|raw| - 1]) + if raw[|raw| - 1].Num? then [raw[|raw| - 1].value] else []
  }

  function Texts(raw: seq<Flag>): (r: seq<string>)
    ensures |r| <= |raw|
    ensures |r| == |raw| ==> forall i :: 0 <= i < |raw| ==> raw[i].Text? && r[i] == raw[i].s
  {
    if raw == [] then []
    else Texts(raw[..|raw| - 1]) + if raw[|raw| - 1].Text? then [raw[|raw| - 1].s] else []
  }

  /** In-budget observations. */
  function Analyzed(s: Spec, finite: seq<real>): (r: seq<real>)
    ensures |r| <= |finite|
  {
    var maximum := Natural(s, s.maxObservations);
    if |finite| <= maximum then finite else finite[..maximum]
  }

  /** Analyzed observations in complete blocks. */
  function Values(s: Spec, finite: seq<real>): (r: seq<real>)
    ensures |r| <= |finite|
  {
    var a := Analyzed(s, finite);
    RemainderAtMost(|a|, BlockSize(s));
    a[..|a| - |a| % BlockSize(s)]
  }

  lemma RemainderAtMost(n: nat, b: nat)
    requires b >= 1
    ensures n % b <= n
  {
  }

  function BlockMeans(values: seq<real>, size: nat): (r: seq<real>)
    requires size >= 1
    ensures |r| <= |values| && (r == [] <==> values == [])
  {
    if values == [] then []
    else if |values| <= size then [Mean(values)]
    else [Mean(values[..size])] + BlockMeans(values[size..], size)
  }

  datatype Stats = Stats(
    blockCount: nat,
    estimate: Option<real>, ciLow: Option<real>, ciHigh: Option<real>, precision: Option<real>,
    lag: Option<real>, drift: Option<real>)

  const NO_STATS := Stats(0, None, None, None, None, None, None)

  lemma RootOfCount(root: real -> real, n: nat)
    requires IsRoot(root) && n >= 1
    ensures root(n as real) > 0.0
  {
    var r := root(n as real);
    assert r * r == n as real;
    assert r != 0.0;
  }

  lemma QuotientIsNonNegative(a: real, b: real)
    requires a >= 0.0 && b > 0.0
    ensures a / b >= 0.0
  {
  }

  lemma StandardErrorIsNonNegative(means: seq<real>, root: real -> real)
    requires IsRoot(root) && |means| >= 2 && root(|means| as real) != 0.0
    ensures StandardError(means, root) >= 0.0
  {
    var d := Deviations(means);
    SquaresAreNonNegative(d);
    hide Deviations, Dot;
    RootOfCount(root, |means|);
    QuotientIsNonNegative(Dot(d, d), (|means| - 1) as real);
    QuotientIsNonNegative(root(Dot(d, d) / (|means| - 1) as real), root(|means| as real));
  }

  /** Half-width of the interval: critical value times standard error. */
  function Margin(s: Spec, means: seq<real>, env: Environment): (m: real)
    requires Sound(env) && |means| >= 2
    ensures m >= 0.0
  {
    hide Critical, StandardError;
    RootOfCount(env.root, |means|);
    var z := env.quantile(CheckpointAlpha(s));
    CriticalIsConservative(z, |means| - 1, |means| - 1);
    StandardErrorIsNonNegative(means, env.root);
    NonNegativeProduct(Critical(z, |means| - 1).value, StandardError(means, env.root));
    Critical(z, |means| - 1).value * StandardError(means, env.root)
  }

  /** Half-width relative to the estimate. */
  function PrecisionRatio(margin: real, estimate: real): (r: real)
    requires margin >= 0.0
    ensures r >= 0.0
  {
    QuotientIsNonNegative(margin, Scale(estimate));
    margin / Scale(estimate)
  }

  /** The statistics of a checkpoint whose numbers stay finite. */
  function CheckpointStats(s: Spec, means: seq<real>, env: Environment): (r: Stats)
    requires Sound(env)
  {
    var lag, drift := LagOne(means, env.root), DriftRatio(means);
    if means == [] then Stats(0, None, None, None, None, lag, drift)
    else
      var estimate := Mean(means);
      if |means| == 1 then Stats(1, Some(estimate), Some(estimate), Some(estimate), Some(0.0), lag, drift)
      else
        var margin := Margin(s, means, env);
        Stats(|means|, Some(estimate), Some(estimate - margin), Some(estimate + margin), Some(PrecisionRatio(margin, estimate)), lag, drift)
  }

  // --------------------------------------------------------------- verdict

  /** Input to one checkpoint; None stands for a container that is neither list nor tuple. */
  datatype Input = Input(
    observations: Option<seq<Scalar>>,
    warmups: Option<seq<Scalar>>,
    baseline: Option<Scalar>,
    flags: Option<seq<Flag>>)

  function OrEmpty<T>(x: Option<seq<T>>): (r: seq<T>) {
    if x.Some? then x.value else []
  }

  function If(b: bool, r: Reason): (q: seq<Reason>)
    ensures forall x :: x in q <==> b && x == r
  {
    if b then [r] else []
  }

  /** Concatenation in recording order. */
  function All(a: seq<Reason>, b: seq<Reason>, c: seq<Reason>, d: seq<Reason>): (q: seq<Reason>)
    ensures forall x :: x in q <==> x in a || x in b || x in c || x in d
  {
    a + b + c + d
  }

  predicate FlagsAccepted(flags: Option<seq<Flag>>) {
    flags.Some? && forall i :: 0 <= i < |flags.value| ==> flags.value[i].Text? && !IsBlank(flags.value[i].s)
  }

  function KeptFlags(flags: Option<seq<Flag>>): (r: seq<string>) {
    if FlagsAccepted(flags) then Texts(flags.value) else []
  }

  predicate AllFinite(raw: seq<Scalar>) {
    forall i :: 0 <= i < |raw| ==> raw[i].Num?
  }

  /** Reasons about containers, protocol and contamination flags. */
  function InputReasons(s: Spec, input: Input): (r: seq<Reason>) {
    All(If(input.observations.None?, ObservationsInvalid), If(input.warmups.None?, WarmupsInvalid),
        If(input.flags.None?, FlagsInvalid), If(!SpecValid(s), ProtocolInvalid))
  }

  function SizeReasons(s: Spec, warmups: seq<real>, finite: seq<real>): (r: seq<Reason>) {
    All(If(|warmups| < Natural(s, s.warmupCount), InsufficientWarmups),
        If(|finite| > |Analyzed(s, finite)|, BudgetExceeded),
        If(|Analyzed(s, finite)| < Natural(s, s.minObservations), InsufficientObservations),
        If(|Values(s, finite)| != |Analyzed(s, finite)|, IncompleteFinalBlock))
  }

  /** Reasons about the flags' content and the sample, before any statistic is computed. */
  function SampleReasons(s: Spec, input: Input): (r: seq<Reason>) {
    All(If(!FlagsAccepted(input.flags), FlagsInvalid),
        If(KeptFlags(input.flags) != [], ContaminationDetected),
        If(!AllFinite(OrEmpty(input.warmups)) || !AllFinite(OrEmpty(input.observations)), NonFiniteObservation),
        SizeReasons(s, Finites(OrEmpty(input.warmups)), Finites(OrEmpty(input.observations))))
  }

  function StabilityReasons(s: Spec, means: seq<real>, env: Environment): (r: seq<Reason>) {
    var lag, drift := LagOne(means, env.root), DriftRatio(means);
    All(If(lag.Some? && !AtMost(Abs(lag.value), Bound(s, s.maxLag)), AutocorrelationExceedsBound),
        If(drift.Some? && !AtMost(drift.value, Bound(s, s.maxDrift)), DriftExceedsBound), [], [])
  }

  /** The stability reasons recorded, overflow or not. */
  function StabilityReasonsOf(s: Spec, means: seq<real>, env: Environment): (r: seq<Reason>) {
    match env.overflow(means)
    case Fits => StabilityReasons(s, means, env)
    case Early => []
    case Late(lag, drift) => All(If(lag, AutocorrelationExceedsBound), If(drift, DriftExceedsBound), [], [])
  }

  predicate LagFlagged(s: Spec, means: seq<real>, env: Environment) {
    match env.overflow(means)
    case Fits => LagOne(means, env.root).Some? && !AtMost(Abs(LagOne(means, env.root).value), Bound(s, s.maxLag))
    case Early => false
    case Late(lag, _) => lag
  }

  predicate DriftFlagged(s: Spec, means: seq<real>, env: Environment) {
    match env.overflow(means)
    case Fits => DriftRatio(means).Some? && !AtMost(DriftRatio(means).value, Bound(s, s.maxDrift))
    case Early => false
    case Late(_, drift) => drift
  }

  function MeansOf(s: Spec, input: Input): (r: seq<real>) {
    BlockMeans(Values(s, Finites(OrEmpty(input.observations))), BlockSize(s))
  }

  predicate FloorMet(s: Spec, input: Input) {
    && |Finites(OrEmpty(input.warmups))| >= Natural(s, s.warmupCount)
    && |Values(s, Finites(OrEmpty(input.observations)))| >= Natural(s, s.minObservations)
  }

  predicate PrecisionMet(s: Spec, stats: Stats) {
    && stats.precision.Some? && AtMost(stats.precision.value, Bound(s, s.relativePrecision))
    && (AbsoluteBound(s).Some? && stats.ciLow.Some? && stats.ciHigh.Some? ==>
          (stats.ciHigh.value - stats.ciLow.value) / 2.0 <= AbsoluteBound(s).value)
  }

  /** The baseline is not strictly beaten by the whole interval. */
  predicate MissesBaseline(s: Spec, stats: Stats, baseline: Option<Scalar>) {
    && baseline.Some? && baseline.value.Num? && stats.ciLow.Some? && stats.ciHigh.Some?
    && (if Direction(s) == "higher_is_better" then stats.ciLow.value <= baseline.value.value
        else stats.ciHigh.value >= baseline.value.value)
  }

  function VerdictReasons(s: Spec, input: Input, stats: Stats): (r: seq<Reason>) {
    All(If(input.baseline == Some(NonFinite), BaselineInvalid),
        If(FloorMet(s, input) && !PrecisionMet(s, stats), PrecisionNotMet),
        If(FloorMet(s, input) && MissesBaseline(s, stats, input.baseline), BaselineNotCleared), [])
  }

  /** The status cascade, from the reasons and the floors. */
  function Verdict(s: Spec, input: Input, stats: Stats, reasons: seq<Reason>): (r: Status) {
    var maximum := Natural(s, s.maxObservations);
    var n := |Finites(OrEmpty(input.observations))|;
    var unstable := AutocorrelationExceedsBound in reasons || DriftExceedsBound in reasons;
    if ContaminationDetected in reasons || NonFiniteObservation in reasons then CONTAMINATED
    else if NumericOverflow in reasons then INSUFFICIENT_EVIDENCE
    else if FloorMet(s, input) && unstable then UNSTABLE
    else if !SpecValid(s) || input.observations.None? || input.warmups.None? || FlagsInvalid in reasons
            || BudgetExceeded in reasons || BaselineInvalid in reasons then INSUFFICIENT_EVIDENCE
    else if IncompleteFinalBlock in reasons then (if n < maximum then CONTINUE else INSUFFICIENT_EVIDENCE)
    else if FloorMet(s, input) && !unstable && PrecisionMet(s, stats) && BaselineNotCleared in reasons then FAIL
    else if FloorMet(s, input) && !unstable && PrecisionMet(s, stats) then PASS
    else if n >= maximum > 0 then INSUFFICIENT_EVIDENCE
    else CONTINUE
  }

  function Dedup(reasons: seq<Reason>): (r: seq<Reason>)
    ensures forall x :: x in r <==> x in reasons
  {
    if reasons == [] then []
    else
      var init, last := Dedup(reasons[..|reasons| - 1]), reasons[|reasons| - 1];
      assert reasons == reasons[..|reasons| - 1] + [last];
      if last in init then init else init + [last]
  }

  function StatsOf(s: Spec, input: Input, env: Environment): (r: Stats)
    requires Sound(env)
  {
    var means := MeansOf(s, input);
    if env.overflow(means).Fits? then CheckpointStats(s, means, env) else NO_STATS
  }

  /** All reasons in the order they are recorded. */
  function ReasonsOf(s: Spec, input: Input, env: Environment): (r: seq<Reason>)
    requires Sound(env)
  {
    var means := MeansOf(s, input);
    All(InputReasons(s, input) + SampleReasons(s, input),
        StabilityReasonsOf(s, means, env),
        If(!env.overflow(means).Fits?, NumericOverflow),
        VerdictReasons(s, input, StatsOf(s, input, env)))
  }

  /** `evaluate_adaptive_measurement` as a function of its input. */
  function Evaluation(s: Spec, input: Input, env: Environment): (r: Result)
    requires Sound(env)
  {
    var stats, reasons := StatsOf(s, input, env), ReasonsOf(s, input, env);
    var body := Body(
                  env.specHash(s), Verdict(s, input, stats, reasons), if s.typed then s.metric else "",
                  stats.estimate, stats.ciLow, stats.ciHigh, stats.precision, stats.lag, stats.drift,
                  |OrEmpty(input.observations)|, |Values(s, Finites(OrEmpty(input.observations)))|,
                  stats.blockCount, |OrEmpty(input.warmups)|,
                  env.rawHash(OrEmpty(input.warmups), OrEmpty(input.observations)),
                  KeptFlags(input.flags), Dedup(reasons));
    Result(body, if s.typed then s.estimand else "", env.bodyHash(body))
  }

  // -------------------------------------------------------- self-validation

  predicate StatisticsPresent(b: Body) {
    b.estimate.Some? && b.ciLow.Some? && b.ciHigh.Some? && b.precision.Some?
  }

  /** `AdaptiveMeasurementResult.validate`; reasons are never blank by their type. */
  predicate Validates(r: Result, env: Environment) {
    var b := r.body;
    && IsDigest(b.protocolHash) && IsDigest(b.rawHash) && IsDigest(r.artifactHash)
    && (b.estimate.Some? || b.ciLow.Some? || b.ciHigh.Some? || b.precision.Some? ==> StatisticsPresent(b))
    && (StatisticsPresent(b) ==> b.ciLow.value <= b.ciHigh.value && b.precision.value >= 0.0)
    && (b.lag.Some? ==> -1.0 <= b.lag.value <= 1.0)
    && (b.drift.Some? ==> b.drift.value >= 0.0)
    && b.count <= b.rawCount && b.blockCount <= b.count
    && (b.blockCount == 0 <==> b.count == 0)
    && (forall f :: f in b.flags ==> !IsBlank(f))
    && (b.status in {PASS, FAIL, UNSTABLE} ==> StatisticsPresent(b) && b.flags == [])
    && (b.status == UNSTABLE ==> AutocorrelationExceedsBound in b.reasons || DriftExceedsBound in b.reasons)
    && r.artifactHash == env.bodyHash(b)
  }

  // ----------------------------------------------------------------- proofs

  /** Statistics that stay finite are all present or all absent, ordered and in range. */
  lemma StatsAreConsistent(s: Spec, means: seq<real>, env: Environment)
    requires Sound(env)
    ensures var t := CheckpointStats(s, means, env);
            && t.blockCount == |means|
            && (means != [] <==> t.estimate.Some?)
            && (t.estimate.Some? ==> t.ciLow.Some? && t.ciHigh.Some? && t.precision.Some?)
            && (t.estimate.None? ==> t.ciLow.None? && t.ciHigh.None? && t.precision.None?)
            && (t.estimate.Some? ==> t.ciLow.value <= t.estimate.value <= t.ciHigh.value && t.precision.value >= 0.0)
            && (t.lag.Some? ==> -1.0 <= t.lag.value <= 1.0)
            && (t.drift.Some? ==> t.drift.value >= 0.0)
  {
    hide LagOne, DriftRatio, Margin, Mean, PrecisionRatio;
    LagInRange(means, env.root);
    DriftIsNonNegative(means);
  }

  lemma LagInRange(means: seq<real>, root: real -> real)
    ensures LagOne(means, root).Some? ==> |means| >= 3 && -1.0 <= LagOne(means, root).value <= 1.0
    ensures DriftRatio(means).Some? ==> |means| >= 4
  {
  }

  lemma InputMeans(s: Spec, input: Input, x: Reason)
    ensures x in InputReasons(s, input) <==>
      || (x == ObservationsInvalid && input.observations.None?) || (x == WarmupsInvalid && input.warmups.None?)
      || (x == FlagsInvalid && input.flags.None?) || (x == ProtocolInvalid && !SpecValid(s))
  {
    hide SpecValid, All, If;
  }

  lemma SampleRange(s: Spec, input: Input, x: Reason)
    ensures x in SampleReasons(s, input) ==> x.FlagsInvalid? || x.ContaminationDetected? || x.NonFiniteObservation? || x.InsufficientWarmups? || x.BudgetExceeded? || x.InsufficientObservations? || x.IncompleteFinalBlock?
  {
    hide If;
  }

  lemma SampleMeans(s: Spec, input: Input)
    ensures var r, finite := SampleReasons(s, input), Finites(OrEmpty(input.observations));
            && (FlagsInvalid in r <==> !FlagsAccepted(input.flags))
            && (ContaminationDetected in r <==> KeptFlags(input.flags) != [])
            && (NonFiniteObservation in r <==> !AllFinite(OrEmpty(input.warmups)) || !AllFinite(OrEmpty(input.observations)))
            && (BudgetExceeded in r <==> |finite| > |Analyzed(s, finite)|)
            && (IncompleteFinalBlock in r <==> |Values(s, finite)| != |Analyzed(s, finite)|)
  {
    hide All, If, Finites, Analyzed, Values, FlagsAccepted, KeptFlags, AllFinite;
  }

  lemma StabilityRange(s: Spec, m: seq<real>, env: Environment, x: Reason)
    ensures x in StabilityReasonsOf(s, m, env) ==> x.AutocorrelationExceedsBound? || x.DriftExceedsBound?
  {
    hide If;
  }

  lemma StabilityMeans(s: Spec, m: seq<real>, env: Environment)
    ensures var r := StabilityReasonsOf(s, m, env);
            && (AutocorrelationExceedsBound in r <==> LagFlagged(s, m, env))
            && (DriftExceedsBound in r <==> DriftFlagged(s, m, env))
  {
    hide All, If, LagOne, DriftRatio, AtMost, Bound;
  }

  lemma VerdictRange(s: Spec, input: Input, stats: Stats, x: Reason)
    ensures x in VerdictReasons(s, input, stats) ==> x.BaselineInvalid? || x.PrecisionNotMet? || x.BaselineNotCleared?
  {
    hide If;
  }

  lemma VerdictMeans(s: Spec, input: Input, stats: Stats)
    ensures var r := VerdictReasons(s, input, stats);
            && (BaselineInvalid in r <==> input.baseline == Some(NonFinite))
            && (PrecisionNotMet in r <==> FloorMet(s, input) && !PrecisionMet(s, stats))
            && (BaselineNotCleared in r <==> FloorMet(s, input) && MissesBaseline(s, stats, input.baseline))
  {
    hide All, If, FloorMet, MissesBaseline, PrecisionMet;
  }

  lemma ReasonsJoin(s: Spec, input: Input, env: Environment, x: Reason)
    requires Sound(env)
    ensures var m := MeansOf(s, input);
            x in ReasonsOf(s, input, env) <==>
              || x in InputReasons(s, input) || x in SampleReasons(s, input)
              || x in StabilityReasonsOf(s, m, env)
              || (!env.overflow(m).Fits? && x == NumericOverflow)
              || x in VerdictReasons(s, input, StatsOf(s, input, env))
  {
    hide InputReasons, SampleReasons, StabilityReasons, VerdictReasons, All, If, StatsOf, MeansOf, Sound;
  }

  /** Each recorded reason comes from its own group only. */
  lemma ReasonsSplit(s: Spec, input: Input, env: Environment, x: Reason)
    requires Sound(env)
    ensures var r, m, v := ReasonsOf(s, input, env), MeansOf(s, input), VerdictReasons(s, input, StatsOf(s, input, env));
            && (x.ContaminationDetected? || x.NonFiniteObservation? || x.BudgetExceeded? || x.IncompleteFinalBlock? ==> (x in r <==> x in SampleReasons(s, input)))
            && (x.FlagsInvalid? ==> (x in r <==> x in SampleReasons(s, input) || input.flags.None?))
            && (x.NumericOverflow? ==> (x in r <==> !env.overflow(m).Fits?))
            && (x.AutocorrelationExceedsBound? || x.DriftExceedsBound? ==> (x in r <==> x in StabilityReasonsOf(s, m, env)))
            && (x.BaselineInvalid? || x.PrecisionNotMet? || x.BaselineNotCleared? ==> (x in r <==> x in v))
  {
    ReasonsJoin(s, input, env, x);
    InputMeans(s, input, x);
    SampleRange(s, input, x);
    StabilityRange(s, MeansOf(s, input), env, x);
    VerdictRange(s, input, StatsOf(s, input, env), x);
    hide *;
  }

  /** Which reasons are recorded, as conditions on the input. */
  lemma ReasonsMean(s: Spec, input: Input, env: Environment)
    requires Sound(env)
    ensures var r, finite := ReasonsOf(s, input, env), Finites(OrEmpty(input.observations));
            && (ContaminationDetected in r <==> KeptFlags(input.flags) != [])
            && (NonFiniteObservation in r <==> !AllFinite(OrEmpty(input.warmups)) || !AllFinite(OrEmpty(input.observations)))
            && (NumericOverflow in r <==> !env.overflow(MeansOf(s, input)).Fits?)
            && (FlagsInvalid in r <==> !FlagsAccepted(input.flags))
            && (BudgetExceeded in r <==> |finite| > |Analyzed(s, finite)|)
            && (IncompleteFinalBlock in r <==> |Values(s, finite)| != |Analyzed(s, finite)|)
            && (BaselineInvalid in r <==> input.baseline == Some(NonFinite))
            && (PrecisionNotMet in r <==> FloorMet(s, input) && !PrecisionMet(s, StatsOf(s, input, env)))
            && (BaselineNotCleared in r <==> FloorMet(s, input) && MissesBaseline(s, StatsOf(s, input, env), input.baseline))
  {
    assert input.flags.None? ==> !FlagsAccepted(input.flags);
    SampleMeans(s, input);
    VerdictMeans(s, input, StatsOf(s, input, env));
    ReasonsSplit(s, input, env, ContaminationDetected);
    ReasonsSplit(s, input, env, NonFiniteObservation);
    ReasonsSplit(s, input, env, NumericOverflow);
    ReasonsSplit(s, input, env, FlagsInvalid);
    ReasonsSplit(s, input, env, BudgetExceeded);
    ReasonsSplit(s, input, env, IncompleteFinalBlock);
    ReasonsSplit(s, input, env, BaselineInvalid);
    ReasonsSplit(s, input, env, PrecisionNotMet);
    ReasonsSplit(s, input, env, BaselineNotCleared);
    hide *;
  }

  lemma UnstableMeans(s: Spec, input: Input, env: Environment)
    requires Sound(env)
    ensures var r, m := ReasonsOf(s, input, env), MeansOf(s, input);
            && (AutocorrelationExceedsBound in r <==> LagFlagged(s, m, env))
            && (DriftExceedsBound in r <==> DriftFlagged(s, m, env))
  {
    StabilityMeans(s, MeansOf(s, input), env);
    ReasonsSplit(s, input, env, AutocorrelationExceedsBound);
    ReasonsSplit(s, input, env, DriftExceedsBound);
    hide *;
  }

  lemma KeptFlagsAreTexts(flags: Option<seq<Flag>>)
    ensures forall f :: f in KeptFlags(flags) ==> !IsBlank(f)
  {
    if FlagsAccepted(flags) {
      AllTextsKept(flags.value);
    }
  }

  lemma {:induction false} AllTextsKept(raw: seq<Flag>)
    requires forall i :: 0 <= i < |raw| ==> raw[i].Text?
    ensures |Texts(raw)| == |raw|
  {
    if raw != [] { AllTextsKept(raw[..|raw| - 1]); }
  }

  /** A checkpoint result passes its own `validate` unless floating point overflowed on a
      non-empty set of analyzed values. In that case the source zeroes the block count but
      keeps the observation count, and `validate` always rejects the result. */
  lemma ResultValidates(s: Spec, input: Input, env: Environment)
    requires Sound(env)
    ensures Validates(Evaluation(s, input, env), env) <==>
              env.overflow(MeansOf(s, input)).Fits? || Values(s, Finites(OrEmpty(input.observations))) == []
  {
    hide Finites, Analyzed, FloorMet, CheckpointStats, LagOne, DriftRatio, ReasonsOf, KeptFlags, FlagsAccepted, AllFinite, AtMost;
    hide MissesBaseline, Bound, SpecValid, IsRoot, IsDigest, BlockMeans, IsBlank, Values;
    StatsAreConsistent(s, MeansOf(s, input), env);
    ReasonsMean(s, input, env);
    UnstableMeans(s, input, env);
    LagInRange(MeansOf(s, input), env.root);
    KeptFlagsAreTexts(input.flags);
    ValuesFewer(s, OrEmpty(input.observations));
  }

  lemma ValuesFewer(s: Spec, raw: seq<Scalar>)
    ensures |Values(s, Finites(raw))| <= |raw|
  {
  }

  const DEFAULT_SPEC := Spec(true, "latency", "mean", "lower_is_better", Num(0.05), 10, 30, 1, 300, Num(0.05), None, Num(0.2), Num(0.1))

  /** The failing family is real: under the default protocol, two equal observations so large
      that their statistics overflow yield a result its own `validate` rejects. */
  lemma OverflowIsRejected(x: real, env: Environment)
    requires Sound(env) && !env.overflow([x, x]).Fits?
    ensures SpecValid(DEFAULT_SPEC)
    ensures !Validates(Evaluation(DEFAULT_SPEC, Input(Some([Num(x), Num(x)]), Some([]), None, Some([])), env), env)
  {
    var input := Input(Some([Num(x), Num(x)]), Some([]), None, Some([]));
    assert !IsBlank("latency") by { assert !JsonTree.IsSpace("latency"[0]); }
    var raw := [Num(x), Num(x)];
    assert raw[..1] == [Num(x)] && raw[..1][..0] == [];
    assert Finites(raw[..1]) == [x];
    assert Finites(raw) == [x, x];
    assert Values(DEFAULT_SPEC, [x, x]) == [x, x];
    MeansOfTwo(x);
    ResultValidates(DEFAULT_SPEC, input, env);
  }

  lemma MeansOfTwo(x: real)
    ensures BlockMeans([x, x], 1) == [x, x]
  {
    assert [x, x][..1] == [x] && [x, x][1..] == [x] && [x][..0] == [];
    assert Sum([x]) == x;
    assert Mean([x]) == x;
  }
}
