/** What a verdict means, the evaluation as the source performs it, and whole sessions. */
module MeasurementSession {
  import opened Options
  import opened Statistics
  import opened Measurement

  // ------------------------------------------------------- what PASS promises

  /** A complete, clean, in-budget sample under a valid protocol. */
  predicate CleanSample(s: Spec, input: Input) {
    && SpecValid(s) && input.observations.Some? && input.warmups.Some?
    && FlagsAccepted(input.flags) && KeptFlags(input.flags) == []
    && AllFinite(input.observations.value) && AllFinite(input.warmups.value)
    && |input.warmups.value| >= s.warmupCount
    && s.minObservations <= |input.observations.value| <= s.maxObservations
    && |input.observations.value| % s.blockSize == 0
    && input.baseline != Some(NonFinite)
  }

  predicate Stable(s: Spec, means: seq<real>, env: Environment)
    requires SpecValid(s)
  {
    && (LagOne(means, env.root).Some? ==> Abs(LagOne(means, env.root).value) <= s.maxLag.value)
    && (DriftRatio(means).Some? ==> DriftRatio(means).value <= s.maxDrift.value)
  }

  /** The statistics of a clean sample are over all of it. */
  lemma CleanSampleIsAnalyzed(s: Spec, input: Input)
    requires SpecValid(s) && input.observations.Some? && input.warmups.Some?
    ensures var finite := Finites(input.observations.value);
            && (|Values(s, finite)| == |Analyzed(s, finite)| && |finite| <= |Analyzed(s, finite)| <==>
                  |finite| <= s.maxObservations && |finite| % s.blockSize == 0)
            && (|finite| <= s.maxObservations && |finite| % s.blockSize == 0 ==> Values(s, finite) == finite)
  {
    hide Finites;
    var finite := Finites(input.observations.value);
    var analyzed, size := Analyzed(s, finite), BlockSize(s);
    assert |analyzed| == (if |finite| <= s.maxObservations then |finite| else s.maxObservations) && size == s.blockSize;
    var rest := |analyzed| % size;
    assert Values(s, finite) == analyzed[..|analyzed| - rest];
    hide Values, Analyzed, BlockSize, SpecValid;
  }

  /** PASS is given exactly to a clean sample whose block means are stable, precise enough
      and, if there is a baseline, wholly beyond it. */
  lemma PassMeans(s: Spec, input: Input, env: Environment)
    requires Sound(env)
    ensures Evaluation(s, input, env).body.status == PASS <==>
      && CleanSample(s, input)
      && env.overflow(MeansOf(s, input)).Fits?
      && Stable(s, MeansOf(s, input), env)
      && PrecisionMet(s, CheckpointStats(s, MeansOf(s, input), env))
      && !MissesBaseline(s, CheckpointStats(s, MeansOf(s, input), env), input.baseline)
  {
    hide Finites, Analyzed, Values, LagOne, DriftRatio, ReasonsOf, KeptFlags, FlagsAccepted, MissesBaseline, CheckpointStats;
    hide PrecisionMet, MeansOf, Sound, Verdict, SpecValid, Natural, Bound;
    ReasonsMean(s, input, env);
    UnstableMeans(s, input, env);
    PassCascade(s, input, StatsOf(s, input, env), ReasonsOf(s, input, env));
    if SpecValid(s) && input.observations.Some? && input.warmups.Some? {
      CleanSampleIsAnalyzed(s, input);
      EffectiveFields(s);
    }
  }

  lemma PassCascade(s: Spec, input: Input, stats: Stats, r: seq<Reason>)
    ensures Verdict(s, input, stats, r) == PASS <==>
      && SpecValid(s) && input.observations.Some? && input.warmups.Some? && FloorMet(s, input) && PrecisionMet(s, stats)
      && ContaminationDetected !in r && NonFiniteObservation !in r && NumericOverflow !in r
      && AutocorrelationExceedsBound !in r && DriftExceedsBound !in r && FlagsInvalid !in r && BudgetExceeded !in r
      && BaselineInvalid !in r && IncompleteFinalBlock !in r && BaselineNotCleared !in r
  {
    hide SpecValid, FloorMet, PrecisionMet;
  }

  lemma EffectiveFields(s: Spec)
    requires SpecValid(s)
    ensures Natural(s, s.warmupCount) == s.warmupCount && Natural(s, s.minObservations) == s.minObservations >= 1
    ensures Bound(s, s.maxLag) == Some(s.maxLag.value) && Bound(s, s.maxDrift) == Some(s.maxDrift.value)
  {
  }

  /** CONTINUE is only given under a valid spec, while there is room for another observation. */
  lemma ContinueMeansRoom(s: Spec, input: Input, env: Environment)
    requires Sound(env) && Evaluation(s, input, env).body.status == CONTINUE
    ensures SpecValid(s)
    ensures input.observations.Some? && |input.observations.value| < s.maxObservations
    ensures AllFinite(input.observations.value) && input.warmups.Some? && AllFinite(input.warmups.value)
  {
    ReasonsMean(s, input, env);
    hide Analyzed, Values, ReasonsOf, KeptFlags, FlagsAccepted, MissesBaseline, PrecisionMet, StatsOf, MeansOf, Sound;
  }

  // --------------------------------------------------- the evaluation itself

  /** `evaluate_adaptive_measurement`: reasons are collected in order while the statistics are
      computed and possibly discarded. */
  method EvaluateAdaptiveMeasurement(s: Spec, input: Input, env: Environment) returns (result: Result)
    requires Sound(env)
    ensures result == Evaluation(s, input, env)
  {
    hide Sound, CheckpointStats, Verdict, Dedup, Values, Finites, BlockMeans, InputReasons, SampleReasons, StabilityReasons, VerdictReasons, KeptFlags;
    var observations, warmups := OrEmpty(input.observations), OrEmpty(input.warmups);
    var reasons := CollectInput(s, input);
    var finite := Finites(observations);
    var sample := CollectSample(s, input, finite);
    reasons := reasons + sample;
    var values := Values(s, finite);
    var means := BlockMeans(values, BlockSize(s));
    var stats := NO_STATS;
    var overflow := env.overflow(means);
    var stability := CollectStability(s, means, env);
    reasons := reasons + stability;
    if overflow.Fits? { stats := CollectStats(s, means, env); } else { reasons := reasons + [NumericOverflow]; }
    var verdict := CollectVerdict(s, input, stats);
    reasons := reasons + verdict;
    assert reasons == ReasonsOf(s, input, env);
    var status := DecideStatus(s, input, finite, stats, reasons);
    var body := Body(
      env.specHash(s), status, if s.typed then s.metric else "",
      stats.estimate, stats.ciLow, stats.ciHigh, stats.precision, stats.lag, stats.drift,
      |observations|, |values|, stats.blockCount, |warmups|,
      env.rawHash(warmups, observations), KeptFlags(input.flags), Dedup(reasons));
    result := Result(body, if s.typed then s.estimand else "", env.bodyHash(body));
  }

  method CollectInput(s: Spec, input: Input) returns (reasons: seq<Reason>)
    ensures reasons == InputReasons(s, input)
  {
    hide SpecValid;
    reasons := [];
    if input.observations.None? { reasons := reasons + [ObservationsInvalid]; }
    if input.warmups.None? { reasons := reasons + [WarmupsInvalid]; }
    if input.flags.None? { reasons := reasons + [FlagsInvalid]; }
    if !SpecValid(s) { reasons := reasons + [ProtocolInvalid]; }
  }

  method CollectStability(s: Spec, means: seq<real>, env: Environment) returns (reasons: seq<Reason>)
    ensures reasons == StabilityReasonsOf(s, means, env)
  {
    hide LagOne, DriftRatio, AtMost, Bound;
    reasons := [];
    var overflow := env.overflow(means);
    if overflow.Early? { return; }
    var lag, drift := LagOne(means, env.root), DriftRatio(means);
    var lagExceeds := if overflow.Late? then overflow.lagReason else lag.Some? && !AtMost(Abs(lag.value), Bound(s, s.maxLag));
    var driftExceeds := if overflow.Late? then overflow.driftReason else drift.Some? && !AtMost(drift.value, Bound(s, s.maxDrift));
    if lagExceeds { reasons := reasons + [AutocorrelationExceedsBound]; }
    if driftExceeds { reasons := reasons + [DriftExceedsBound]; }
  }

  method CollectSample(s: Spec, input: Input, finite: seq<real>) returns (reasons: seq<Reason>)
    requires finite == Finites(OrEmpty(input.observations))
    ensures reasons == SampleReasons(s, input)
  {
    hide SizeReasons, Finites, FlagsAccepted, KeptFlags, AllFinite;
    reasons := [];
    if !FlagsAccepted(input.flags) { reasons := reasons + [FlagsInvalid]; }
    if KeptFlags(input.flags) != [] { reasons := reasons + [ContaminationDetected]; }
    if !AllFinite(OrEmpty(input.warmups)) || !AllFinite(OrEmpty(input.observations)) { reasons := reasons + [NonFiniteObservation]; }
    var size := CollectSize(s, Finites(OrEmpty(input.warmups)), finite);
    reasons := reasons + size;
  }

  method CollectSize(s: Spec, warmups: seq<real>, finite: seq<real>) returns (reasons: seq<Reason>)
    ensures reasons == SizeReasons(s, warmups, finite)
  {
    hide Values, Analyzed;
    reasons := [];
    if |warmups| < Natural(s, s.warmupCount) { reasons := reasons + [InsufficientWarmups]; }
    if |finite| > |Analyzed(s, finite)| { reasons := reasons + [BudgetExceeded]; }
    if |Analyzed(s, finite)| < Natural(s, s.minObservations) { reasons := reasons + [InsufficientObservations]; }
    if |Values(s, finite)| != |Analyzed(s, finite)| { reasons := reasons + [IncompleteFinalBlock]; }
  }

  method CollectVerdict(s: Spec, input: Input, stats: Stats) returns (reasons: seq<Reason>)
    ensures reasons == VerdictReasons(s, input, stats)
  {
    hide FloorMet, PrecisionMet, MissesBaseline;
    reasons := [];
    if input.baseline == Some(NonFinite) { reasons := reasons + [BaselineInvalid]; }
    if FloorMet(s, input) && !PrecisionMet(s, stats) { reasons := reasons + [PrecisionNotMet]; }
    if FloorMet(s, input) && MissesBaseline(s, stats, input.baseline) { reasons := reasons + [BaselineNotCleared]; }
  }

  method CollectStats(s: Spec, means: seq<real>, env: Environment) returns (stats: Stats)
    requires Sound(env)
    ensures stats == CheckpointStats(s, means, env)
  {
    hide Sound, LagOne, DriftRatio, Mean, Margin, PrecisionRatio;
    var estimate, ciLow, ciHigh, precision: Option<real> := None, None, None, None;
    var lag, drift := LagOne(means, env.root), DriftRatio(means);
    if means != [] { estimate := Some(Mean(means)); }
    if estimate.Some? && |means| > 1 {
      var margin := Margin(s, means, env);
      ciLow, ciHigh := Some(estimate.value - margin), Some(estimate.value + margin);
      precision := Some(PrecisionRatio(margin, estimate.value));
    } else if estimate.Some? {
      ciLow, ciHigh, precision := estimate, estimate, Some(0.0);
    }
    stats := Stats(|means|, estimate, ciLow, ciHigh, precision, lag, drift);
  }

  /** The status cascade of the source, branch by branch. */
  method DecideStatus(s: Spec, input: Input, finite: seq<real>, stats: Stats, reasons: seq<Reason>) returns (status: Status)
    requires finite == Finites(OrEmpty(input.observations))
    ensures status == Verdict(s, input, stats, reasons)
  {
    hide SpecValid, FloorMet, PrecisionMet, Finites;
    var maximum := Natural(s, s.maxObservations);
    var protocolValid, floor, precise := SpecValid(s), FloorMet(s, input), PrecisionMet(s, stats);
    var stable := AutocorrelationExceedsBound !in reasons && DriftExceedsBound !in reasons;
    if ContaminationDetected in reasons || NonFiniteObservation in reasons {
      status := CONTAMINATED;
    } else if NumericOverflow in reasons {
      status := INSUFFICIENT_EVIDENCE;
    } else if floor && (AutocorrelationExceedsBound in reasons || DriftExceedsBound in reasons) {
      status := UNSTABLE;
    } else if !protocolValid || input.observations.None? || input.warmups.None?
              || FlagsInvalid in reasons || BudgetExceeded in reasons || BaselineInvalid in reasons {
      status := INSUFFICIENT_EVIDENCE;
    } else if IncompleteFinalBlock in reasons {
      status := if |finite| < maximum then CONTINUE else INSUFFICIENT_EVIDENCE;
    } else if floor && stable && precise && BaselineNotCleared in reasons {
      status := FAIL;
    } else if floor && stable && precise {
      status := PASS;
    } else if |finite| >= maximum > 0 {
      status := INSUFFICIENT_EVIDENCE;
    } else {
      status := CONTINUE;
    }
  }

  // -------------------------------------------------------------- sessions

  datatype Session = Session(spec: Spec, warmups: seq<Scalar>, observations: seq<Scalar>)

  datatype Append = AppendWarmups(values: Option<seq<Scalar>>) | AppendObservations(values: Option<seq<Scalar>>)

  datatype Outcome = Appended(session: Session) | SessionTerminal | BadContainer

  function Checkpoint(x: Session, env: Environment): (r: Result)
    requires Sound(env)
  {
    Evaluation(x.spec, Input(Some(x.observations), Some(x.warmups), None, Some([])), env)
  }

  /** `append_warmups` and `append_observations`; errors leave the frozen session as it is. */
  function Attempt(x: Session, a: Append, env: Environment): (r: Outcome)
    requires Sound(env)
  {
    var open := Checkpoint(x, env).body.status == CONTINUE;
    match a
    case AppendWarmups(values) =>
      if !open && x.observations != [] then SessionTerminal
      else if values.None? then BadContainer
      else Appended(x.(warmups := x.warmups + values.value))
    case AppendObservations(values) =>
      if !open then SessionTerminal
      else if values.None? then BadContainer
      else Appended(x.(observations := x.observations + values.value))
  }

  function After(x: Session, a: Append, env: Environment): (r: Session)
    requires Sound(env)
  {
    var o := Attempt(x, a, env);
    if o.Appended? then o.session else x
  }

  /** The session after a sequence of attempts, refused ones included. */
  function Run(x: Session, attempts: seq<Append>, env: Environment): (r: Session)
    requires Sound(env)
    decreases |attempts|
  {
    hide After;
    if attempts == [] then x else Run(After(x, attempts[0], env), attempts[1..], env)
  }

  /** Accepted appends that added at least one observation. */
  function Accepted(x: Session, attempts: seq<Append>, env: Environment): (r: nat)
    requires Sound(env)
    decreases |attempts|
  {
    hide After;
    if attempts == [] then 0
    else (if |After(x, attempts[0], env).observations| > |x.observations| then 1 else 0)
         + Accepted(After(x, attempts[0], env), attempts[1..], env)
  }

  /** Observations a session may still take. */
  function Room(x: Session): (n: nat) {
    if SpecValid(x.spec) && |x.observations| < x.spec.maxObservations then x.spec.maxObservations - |x.observations| else 0
  }

  /** Sessions end: any run of attempts accepts at most as many non-empty observation appends as there
      was room for, and none at all under an invalid spec. */
  lemma {:induction false} SessionsEnd(x: Session, attempts: seq<Append>, env: Environment)
    requires Sound(env)
    ensures Accepted(x, attempts, env) <= Room(x)
    decreases |attempts|
  {
    hide Sound, SpecValid, After;
    if attempts != [] {
      var y := After(x, attempts[0], env);
      AppendNeedsRoom(x, attempts[0], env);
      SessionsEnd(y, attempts[1..], env);
    }
  }

  /** One attempt keeps the spec; if it adds an observation there was room for one. */
  lemma AppendNeedsRoom(x: Session, a: Append, env: Environment)
    requires Sound(env)
    ensures After(x, a, env).spec == x.spec && |After(x, a, env).observations| >= |x.observations|
    ensures |After(x, a, env).observations| > |x.observations| ==> SpecValid(x.spec) && |x.observations| < x.spec.maxObservations
  {
    hide Sound, SpecValid, Evaluation;
    if Checkpoint(x, env).body.status == CONTINUE {
      ContinueMeansRoom(x.spec, Input(Some(x.observations), Some(x.warmups), None, Some([])), env);
    }
  }

  /** A checkpoint that is not CONTINUE on a non-empty sample closes the session for good. */
  lemma {:induction false} TerminalIsForever(x: Session, attempts: seq<Append>, env: Environment)
    requires Sound(env) && x.observations != [] && Checkpoint(x, env).body.status != CONTINUE
    ensures Run(x, attempts, env) == x
    decreases |attempts|
  {
    hide Sound, Checkpoint;
    if attempts != [] { TerminalIsForever(x, attempts[1..], env); }
  }

  /** One malformed observation makes the session terminal; a malformed warm-up stops all
      further observations. */
  lemma {:induction false} MalformedIsTerminal(x: Session, attempts: seq<Append>, env: Environment)
    requires Sound(env) && !(AllFinite(x.observations) && AllFinite(x.warmups))
    ensures Checkpoint(x, env).body.status == CONTAMINATED
    ensures Run(x, attempts, env).observations == x.observations
    ensures !AllFinite(x.observations) ==> Run(x, attempts, env) == x
    decreases |attempts|
  {
    MalformedIsContaminated(x, env);
    hide Sound, Checkpoint, After, AllFinite;
    if attempts != [] {
      var y := After(x, attempts[0], env);
      ClosedAttempt(x, attempts[0], env);
      MoreWarmups(x.warmups, y.warmups);
      MalformedIsTerminal(y, attempts[1..], env);
    }
  }

  lemma ClosedAttempt(x: Session, a: Append, env: Environment)
    requires Sound(env) && Checkpoint(x, env).body.status != CONTINUE
    ensures var y := After(x, a, env); y.observations == x.observations && x.warmups <= y.warmups && (x.observations != [] ==> y == x)
  {
    hide Sound, Checkpoint;
  }

  lemma MalformedIsContaminated(x: Session, env: Environment)
    requires Sound(env) && !(AllFinite(x.observations) && AllFinite(x.warmups))
    ensures Checkpoint(x, env).body.status == CONTAMINATED
  {
    ReasonsMean(x.spec, Input(Some(x.observations), Some(x.warmups), None, Some([])), env);
    hide Sound, ReasonsOf, StatsOf, SpecValid, FloorMet, PrecisionMet, AllFinite;
  }

  lemma MoreWarmups(a: seq<Scalar>, b: seq<Scalar>)
    ensures a <= b && !AllFinite(a) ==> !AllFinite(b)
  {
    if a <= b && !AllFinite(a) {
      var i :| 0 <= i < |a| && !a[i].Num?;
      assert b[i] == a[i];
    }
  }

  // -------------------------------------------------------------- alpha spent

  lemma {:induction false} CountsFit(counts: set<nat>, maximum: nat)
    requires forall n :: n in counts ==> 1 <= n <= maximum
    ensures |counts| <= maximum
  {
    if maximum == 0 {
      assert counts == {};
    } else {
      CountsFit(counts - {maximum}, maximum - 1);
    }
  }

  lemma ShareOfAlpha(alpha: real, k: nat, maximum: nat)
    requires alpha > 0.0 && k <= maximum && maximum >= 1
    ensures k as real * (alpha / maximum as real) <= alpha
  {
    var share := alpha / maximum as real;
    assert share * maximum as real == alpha;
    QuotientIsNonNegative(alpha, maximum as real);
    NonNegativeProduct((maximum - k) as real, share);
    assert (maximum - k) as real == maximum as real - k as real;
    assert (maximum as real - k as real) * share == maximum as real * share - k as real * share;
  }

  /** Looking at every in-budget observation count never spends more than the registered alpha. */
  lemma AlphaIsNotOverspent(s: Spec, counts: set<nat>)
    requires SpecValid(s) && forall n :: n in counts ==> 1 <= n <= s.maxObservations
    ensures |counts| as real * CheckpointAlpha(s) <= s.alpha.value
  {
    CountsFit(counts, s.maxObservations);
    ShareOfAlpha(s.alpha.value, |counts|, s.maxObservations);
  }

  // --------------------------------------------------------------- what an append does

  /** Each append is refused or puts the given values behind those of its kind, and changes nothing else: observations
  while the checkpoint says CONTINUE, warm-ups also while there is no observation yet. */
  lemma AppendDoes(x: Session, a: Append, env: Environment)
    requires Sound(env)
    ensures var y, open := After(x, a, env), Checkpoint(x, env).body.status == CONTINUE;
            && y.spec == x.spec
            && (a.AppendObservations? ==>
                  && y.warmups == x.warmups
                  && y.observations == if open && a.values.Some? then x.observations + a.values.value else x.observations)
            && (a.AppendWarmups? ==>
                  && y.observations == x.observations
                  && y.warmups == if (open || x.observations == []) && a.values.Some? then x.warmups + a.values.value else x.warmups)
  {
    hide Checkpoint, Sound;
  }

  /** Nothing recorded in a session is ever changed or taken out. */
  lemma {:induction false} SessionsOnlyGrow(x: Session, attempts: seq<Append>, env: Environment)
    requires Sound(env)
    ensures var y := Run(x, attempts, env); y.spec == x.spec && x.warmups <= y.warmups && x.observations <= y.observations
    decreases |attempts|
  {
    hide After, Sound;
    if attempts != [] {
      AppendDoes(x, attempts[0], env);
      SessionsOnlyGrow(After(x, attempts[0], env), attempts[1..], env);
    }
  }
}
