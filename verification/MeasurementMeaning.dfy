/** What a checkpoint result means, on its own fields and those of its input. */
module MeasurementMeaning {
  import opened Options
  import opened Statistics
  import opened StatisticsLaws
  import opened Measurement
  import opened MeasurementSession

  // ------------------------------------------------------------------ the sample

  /** Filtering keeps the numbers, in order. */
  lemma {:induction false} FinitesAdd(a: seq<Scalar>, b: seq<Scalar>)
    ensures Finites(a + b) == Finites(a) + Finites(b)
    ensures forall x: real :: Finites([Num(x)]) == [x]
    ensures Finites([NonFinite]) == []
  {
    forall x: real ensures Finites([Num(x)]) == [x] { assert [Num(x)][..0] == []; }
    assert [NonFinite][..0] == [];
    if b == [] {
      assert a + b == a;
    } else {
      FinitesAdd(a, b[..|b| - 1]);
      assert (a + b)[..|a + b| - 1] == a + b[..|b| - 1];
    }
  }

  lemma AtLeastOnce(b: int, k: int)
    requires b >= 1 && k >= 1
    ensures b * k >= b
  {
  }

  lemma Times(b: int, x: int, y: int)
    ensures b * (x - y) == b * x - b * y
  {
  }

  lemma RestIsUnique(n: int, b: int, q: int, r: int)
    requires b >= 1 && n == b * q + r && 0 <= r < b
    ensures n % b == r
  {
    var k, t := n / b, n % b;
    assert n == b * k + t;
    Times(b, k, q);
    if k > q { AtLeastOnce(b, k - q); }
    if k < q { AtLeastOnce(b, q - k); Times(b, q, k); }
  }

  lemma LargestMultiple(n: nat, b: nat)
    requires b >= 1
    ensures var m := n - n % b; 0 <= m <= n < m + b && m % b == 0
  {
    RestIsUnique(n - n % b, b, n / b, 0);
  }

  /** The analyzed values are the first observations, as many as the budget admits and whole blocks hold. */
  lemma ValuesAre(s: Spec, finite: seq<real>)
    ensures var v, size := Values(s, finite), if s.typed && s.blockSize > 0 then s.blockSize else 1;
            var budget := if s.typed && s.maxObservations > 0 then s.maxObservations else 0;
            var most := if |finite| <= budget then |finite| else budget;
            v == finite[..|v|] && |v| % size == 0 && |v| <= most < |v| + size
  {
    LargestMultiple(|Analyzed(s, finite)|, BlockSize(s));
  }

  /** All values, block after block. */
  function Flat(blocks: seq<seq<real>>): (r: seq<real>) {
    if blocks == [] then [] else blocks[0] + Flat(blocks[1..])
  }

  /** The values cut into blocks of one size. */
  predicate AreBlocks(blocks: seq<seq<real>>, values: seq<real>, size: nat) {
    size >= 1 && Flat(blocks) == values && forall k :: 0 <= k < |blocks| ==> |blocks[k]| == size
  }

  /** Each block mean is the mean of its block. */
  lemma {:induction false} BlockMeansAre(blocks: seq<seq<real>>, values: seq<real>, size: nat)
    requires AreBlocks(blocks, values, size)
    ensures var m := BlockMeans(values, size); |m| == |blocks| && forall k :: 0 <= k < |m| ==> m[k] == Mean(blocks[k])
    decreases |blocks|
  {
    hide Mean;
    if blocks != [] {
      var first, rest := blocks[0], Flat(blocks[1..]);
      BlockMeansAre(blocks[1..], rest, size);
      assert values == first + rest && values[..size] == first && values[size..] == rest;
      if rest == [] { assert values == first; }
    }
  }

  /** Values without an incomplete block can be cut. */
  lemma {:induction false} BlocksExist(values: seq<real>, size: nat) returns (blocks: seq<seq<real>>)
    requires size >= 1 && |values| % size == 0
    ensures AreBlocks(blocks, values, size)
    decreases |values|
  {
    if values == [] {
      blocks := [];
    } else {
      OneBlockLess(|values|, size);
      var rest := BlocksExist(values[size..], size);
      blocks := [values[..size]] + rest;
      assert blocks[1..] == rest;
    }
  }

  lemma OneBlockLess(n: nat, size: nat)
    requires size >= 1 && n > 0 && n % size == 0
    ensures n >= size && (n - size) % size == 0
  {
    var q := n / size;
    assert n == size * q;
    if q <= 0 { Times(size, 0, -q); }
    AtLeastOnce(size, q);
    Times(size, q, 1);
    RestIsUnique(n - size, size, q - 1, 0);
  }

  lemma {:induction false} BlocksSum(blocks: seq<seq<real>>, means: seq<real>, size: nat)
    requires size >= 1 && |means| == |blocks|
    requires forall k :: 0 <= k < |blocks| ==> |blocks[k]| == size && means[k] == Mean(blocks[k])
    ensures Sum(Flat(blocks)) == Sum(means) * size as real
    decreases |blocks|
  {
    hide Mean, Sum;
    if blocks == [] {
      NothingSums();
    } else {
      BlocksSum(blocks[1..], means[1..], size);
      SumAdds(blocks[0], Flat(blocks[1..]));
      MeanTimesCount(blocks[0]);
      SumAdds([means[0]], means[1..]);
      assert means == [means[0]] + means[1..];
      hide Flat;
      Distribute(means[0], Sum(means[1..]), size as real);
    }
  }

  lemma {:induction false} FlatLength(blocks: seq<seq<real>>, size: nat)
    requires forall k :: 0 <= k < |blocks| ==> |blocks[k]| == size
    ensures |Flat(blocks)| as real == |blocks| as real * size as real
    decreases |blocks|
  {
    if blocks != [] {
      FlatLength(blocks[1..], size);
      Distribute(1.0, |blocks[1..]| as real, size as real);
    }
  }

  lemma NothingSums()
    ensures Sum([]) == 0.0
  {
  }

  lemma Distribute(a: real, b: real, c: real)
    ensures (a + b) * c == a * c + b * c
  {
  }

  /** The mean of the block means is the mean of all values. */
  lemma MeanOfBlockMeans(values: seq<real>, size: nat)
    requires size >= 1 && values != [] && |values| % size == 0
    ensures BlockMeans(values, size) != [] && Mean(BlockMeans(values, size)) == Mean(values)
  {
    hide Mean, BlockMeans, Sum, Flat;
    var m := BlockMeans(values, size);
    var blocks := BlocksExist(values, size);
    BlockMeansAre(blocks, values, size);
    BlocksSum(blocks, m, size);
    FlatLength(blocks, size);
    SameLength(values, size);
    MeanTimesCount(m);
    MeanTimesCount(values);
    SameMean(Mean(m), Mean(values), Sum(m), |m| as real, size as real);
  }

  lemma SameLength(values: seq<real>, size: nat)
    requires size >= 1 && values != []
    ensures BlockMeans(values, size) != []
  {
  }

  lemma SameMean(x: real, y: real, sum: real, n: real, size: real)
    requires n > 0.0 && size > 0.0 && x * n == sum
    ensures y * (n * size) == sum * size ==> x == y
  {
    if y * (n * size) == sum * size {
      assert y * (n * size) == (y * n) * size;
      CancelFactor(y * n, sum, size);
      CancelFactor(x, y, n);
    }
  }

  // ----------------------------------------------------------- the fields of a result

  /** What is shown without overflow: the mean of all analyzed values; around it an interval whose half-width is the
  critical value at an equal share of alpha times the standard error of the block means; that width relative to the
  estimate; and the two stability ratios of the block means. */
  lemma FieldsAre(s: Spec, input: Input, env: Environment)
    requires Sound(env) && env.overflow(MeansOf(s, input)).Fits?
    ensures var b, v, m := Evaluation(s, input, env).body, Values(s, Finites(OrEmpty(input.observations))), MeansOf(s, input);
            && b.count == |v| && b.blockCount == |m| && b.rawCount == |OrEmpty(input.observations)|
            && b.lag == LagOne(m, env.root) && b.drift == DriftRatio(m)
            && (v == [] ==> b.estimate == None && b.ciLow == None && b.ciHigh == None && b.precision == None)
            && (v != [] ==> b.estimate == Some(Mean(v)) && b.ciLow.Some? && b.ciHigh.Some? && b.precision.Some?)
            && (|m| == 1 ==> b.ciLow == b.estimate && b.ciHigh == b.estimate && b.precision == Some(0.0))
            && (|m| >= 2 ==> IsInterval(HalfWidth(s, m, env), b.estimate.value, b.ciLow.value, b.ciHigh.value, b.precision.value))
  {
    BodyShows(s, input, env);
    StatsShow(s, input, env);
    hide *;
  }

  /** The numbers of a result are the statistics of its block means. */
  lemma BodyShows(s: Spec, input: Input, env: Environment)
    requires Sound(env) && env.overflow(MeansOf(s, input)).Fits?
    ensures var b, t := Evaluation(s, input, env).body, CheckpointStats(s, MeansOf(s, input), env);
            && b.estimate == t.estimate && b.ciLow == t.ciLow && b.ciHigh == t.ciHigh && b.precision == t.precision
            && b.lag == t.lag && b.drift == t.drift && b.blockCount == t.blockCount
            && b.count == |Values(s, Finites(OrEmpty(input.observations)))| && b.rawCount == |OrEmpty(input.observations)|
            && b.status == Verdict(s, input, t, ReasonsOf(s, input, env))
  {
    hide CheckpointStats, Verdict, ReasonsOf, Values, Finites, MeansOf, KeptFlags, Dedup, Sound;
  }

  lemma StatsShow(s: Spec, input: Input, env: Environment)
    requires Sound(env)
    ensures var t, v, m := CheckpointStats(s, MeansOf(s, input), env), Values(s, Finites(OrEmpty(input.observations))), MeansOf(s, input);
            && t.blockCount == |m| && t.lag == LagOne(m, env.root) && t.drift == DriftRatio(m)
            && (v == [] ==> t.estimate == None && t.ciLow == None && t.ciHigh == None && t.precision == None)
            && (v != [] ==> t.estimate == Some(Mean(v)) && t.ciLow.Some? && t.ciHigh.Some? && t.precision.Some?)
            && (|m| == 1 ==> t.ciLow == t.estimate && t.ciHigh == t.estimate && t.precision == Some(0.0))
            && (|m| >= 2 ==> IsInterval(HalfWidth(s, m, env), t.estimate.value, t.ciLow.value, t.ciHigh.value, t.precision.value))
  {
    hide Sound, Values, Finites, Mean, BlockMeans, LagOne, DriftRatio, Margin, PrecisionRatio, IsInterval, HalfWidth;
    var v, m := Values(s, Finites(OrEmpty(input.observations))), MeansOf(s, input);
    ValuesAre(s, Finites(OrEmpty(input.observations)));
    assert m == BlockMeans(v, BlockSize(s));
    if v != [] { MeanOfBlockMeans(v, BlockSize(s)); }
    if |m| >= 2 { MarginIsHalfWidth(s, m, env, Mean(v)); }
    hide MeansOf, BlockSize;
  }

  /** Critical value at an equal share of alpha, times the standard error of the block means. */
  function HalfWidth(s: Spec, m: seq<real>, env: Environment): (half: real)
    requires Sound(env) && |m| >= 2
  {
    var share := Alpha(s) / (if s.typed && s.maxObservations > 1 then s.maxObservations else 1) as real;
    RootOfCount(env.root, |m|);
    if Critical(env.quantile(share), |m| - 1).Finite? then Critical(env.quantile(share), |m| - 1).value * StandardError(m, env.root) else 0.0
  }

  /** The interval reaches `half` to both sides, and `precision` is that width in units of the estimate or of 1e-12. */
  predicate IsInterval(half: real, estimate: real, low: real, high: real, precision: real) {
    && half >= 0.0 && low == estimate - half && high == estimate + half
    && precision * (if Abs(estimate) < 0.000000000001 then 0.000000000001 else Abs(estimate)) == half
  }

  lemma MarginIsHalfWidth(s: Spec, m: seq<real>, env: Environment, estimate: real)
    requires Sound(env) && |m| >= 2
    ensures var half := Margin(s, m, env); half == HalfWidth(s, m, env)
    ensures IsInterval(Margin(s, m, env), estimate, estimate - Margin(s, m, env), estimate + Margin(s, m, env),
                       PrecisionRatio(Margin(s, m, env), estimate))
  {
    hide Margin, HalfWidth, Sound;
    SameMargin(s, m, env);
    RatioShows(Margin(s, m, env), estimate);
  }

  lemma RatioShows(half: real, estimate: real)
    requires half >= 0.0
    ensures IsInterval(half, estimate, estimate - half, estimate + half, PrecisionRatio(half, estimate))
  {
    UnitIs(estimate);
    RatioTimes(PrecisionRatio(half, estimate), half, Scale(estimate));
    hide PrecisionRatio, Scale;
  }

  lemma SameMargin(s: Spec, m: seq<real>, env: Environment)
    requires Sound(env) && |m| >= 2
    ensures Margin(s, m, env) == HalfWidth(s, m, env)
  {
    hide Sound, StandardError, Expansion, IsDigest;
  }

  // ------------------------------------------------------------------- the verdict

  /** Something contaminates the sample: a flag was raised, or a value is no finite number. */
  predicate Contaminated(input: Input) {
    || (input.flags.Some? && input.flags.value != []
        && forall i :: 0 <= i < |input.flags.value| ==> input.flags.value[i].Text? && !IsBlank(input.flags.value[i].s))
    || (exists i :: 0 <= i < |OrEmpty(input.observations)| && OrEmpty(input.observations)[i].NonFinite?)
    || (exists i :: 0 <= i < |OrEmpty(input.warmups)| && OrEmpty(input.warmups)[i].NonFinite?)
  }

  /** The warm-ups and the analyzed values reach the protocol's minimum. */
  predicate FloorReached(s: Spec, input: Input, b: Body) {
    && |OrEmpty(input.warmups)| >= (if s.typed && s.warmupCount > 0 then s.warmupCount else 0)
    && b.count >= (if s.typed && s.minObservations > 0 then s.minObservations else 0)
  }

  /** A stability ratio shown in the result is beyond its bound. */
  predicate Unsteady(s: Spec, b: Body) {
    || (b.lag.Some? && s.typed && s.maxLag.Num? && 0.0 < s.maxLag.value < 1.0
        && (b.lag.value > s.maxLag.value || -b.lag.value > s.maxLag.value))
    || (b.drift.Some? && s.typed && s.maxDrift.Num? && 0.0 < s.maxDrift.value < 1.0 && b.drift.value > s.maxDrift.value)
  }

  /** The interval shown is narrow enough for every bound that is well formed, relatively and, if asked for, absolutely. */
  predicate NarrowEnough(s: Spec, b: Body) {
    && b.precision.Some?
    && (s.typed && s.relativePrecision.Num? && 0.0 < s.relativePrecision.value < 1.0 ==> b.precision.value <= s.relativePrecision.value)
    && (s.typed && s.absolutePrecision.Some? && s.absolutePrecision.value.Num? && s.absolutePrecision.value.value > 0.0
        && b.ciLow.Some? && b.ciHigh.Some? ==>
          (b.ciHigh.value - b.ciLow.value) / 2.0 <= s.absolutePrecision.value.value)
  }

  /** Some of the interval shown is not strictly on the better side of the baseline. */
  predicate NotBeaten(s: Spec, input: Input, b: Body) {
    && input.baseline.Some? && input.baseline.value.Num? && b.ciLow.Some? && b.ciHigh.Some?
    && if s.typed && s.direction == "higher_is_better" then b.ciLow.value <= input.baseline.value.value
       else b.ciHigh.value >= input.baseline.value.value
  }

  /** The status of every checkpoint that does not overflow, from its input and the numbers it shows. */
  lemma StatusIs(s: Spec, input: Input, env: Environment)
    requires Sound(env) && env.overflow(MeansOf(s, input)).Fits?
    ensures var b, n := Evaluation(s, input, env).body, |OrEmpty(input.observations)|;
            b.status ==
            if Contaminated(input) then CONTAMINATED
            else if FloorReached(s, input, b) && Unsteady(s, b) then UNSTABLE
            else if !SpecValid(s) || input.observations.None? || input.warmups.None? || input.flags != Some([])
                    || n > s.maxObservations || input.baseline == Some(NonFinite) then INSUFFICIENT_EVIDENCE
            else if n % s.blockSize != 0 then (if n < s.maxObservations then CONTINUE else INSUFFICIENT_EVIDENCE)
            else if FloorReached(s, input, b) && NarrowEnough(s, b) then (if NotBeaten(s, input, b) then FAIL else PASS)
            else if n == s.maxObservations then INSUFFICIENT_EVIDENCE
            else CONTINUE
  {
    var b, t, r := Evaluation(s, input, env).body, CheckpointStats(s, MeansOf(s, input), env), ReasonsOf(s, input, env);
    BodyShows(s, input, env);
    StatsShow(s, input, env);
    ReasonsMean(s, input, env);
    ContaminatedMeans(s, input);
    UnsteadyMeans(s, input, env, b);
    if !Contaminated(input) { FloorMeans(s, input, b); }
    BoundsMean(s, input, b, t);
    if SpecValid(s) && !Contaminated(input) { SizesMean(s, input); }
    FlagsMean(input);
    StatsAre(s, input, env);
    hide CheckpointStats, StatsOf, ReasonsOf, Contaminated, FloorReached, FloorMet, Unsteady, NarrowEnough, NotBeaten;
    hide PrecisionMet, MissesBaseline, SpecValid, Sound, MeansOf, Values, Analyzed, Finites, KeptFlags, FlagsAccepted, Evaluation;
    hide HalfWidth, IsInterval, LagOne, DriftRatio, AllFinite;
  }

  lemma StatsAre(s: Spec, input: Input, env: Environment)
    requires Sound(env) && env.overflow(MeansOf(s, input)).Fits?
    ensures StatsOf(s, input, env) == CheckpointStats(s, MeansOf(s, input), env)
  {
    hide CheckpointStats, Sound, MeansOf;
  }

  lemma ContaminatedMeans(s: Spec, input: Input)
    ensures Contaminated(input) <==>
      KeptFlags(input.flags) != [] || !AllFinite(OrEmpty(input.warmups)) || !AllFinite(OrEmpty(input.observations))
  {
    if FlagsAccepted(input.flags) { AllTextsKept(input.flags.value); }
    hide IsBlank;
  }

  lemma FlagsMean(input: Input)
    ensures FlagsAccepted(input.flags) && KeptFlags(input.flags) == [] <==> input.flags == Some([])
  {
    if FlagsAccepted(input.flags) { AllTextsKept(input.flags.value); }
    hide IsBlank;
  }

  lemma UnsteadyMeans(s: Spec, input: Input, env: Environment, b: Body)
    requires Sound(env) && env.overflow(MeansOf(s, input)).Fits?
    requires b.lag == LagOne(MeansOf(s, input), env.root) && b.drift == DriftRatio(MeansOf(s, input))
    ensures var r := ReasonsOf(s, input, env); Unsteady(s, b) <==> AutocorrelationExceedsBound in r || DriftExceedsBound in r
  {
    hide Sound, LagOne, DriftRatio, MeansOf, ReasonsOf;
    UnstableMeans(s, input, env);
  }

  lemma FloorMeans(s: Spec, input: Input, b: Body)
    requires !Contaminated(input) && b.count == |Values(s, Finites(OrEmpty(input.observations)))|
    ensures FloorReached(s, input, b) <==> FloorMet(s, input)
  {
    hide Values, Finites, IsBlank;
  }

  lemma BoundsMean(s: Spec, input: Input, b: Body, t: Stats)
    requires b.precision == t.precision && b.ciLow == t.ciLow && b.ciHigh == t.ciHigh
    ensures NarrowEnough(s, b) <==> PrecisionMet(s, t)
    ensures NotBeaten(s, input, b) <==> MissesBaseline(s, t, input.baseline)
  {
    hide IsBlank;
  }

  lemma SizesMean(s: Spec, input: Input)
    requires SpecValid(s) && !Contaminated(input)
    ensures var finite, n := Finites(OrEmpty(input.observations)), |OrEmpty(input.observations)|;
            && |finite| == n
            && (|finite| > |Analyzed(s, finite)| <==> n > s.maxObservations)
            && (n <= s.maxObservations ==> (|Values(s, finite)| != |Analyzed(s, finite)| <==> n % s.blockSize != 0))
            && Natural(s, s.maxObservations) == s.maxObservations >= 1
  {
    hide Finites, IsBlank, Within;
    var finite := Finites(OrEmpty(input.observations));
    assert |finite| == |OrEmpty(input.observations)|;
    ValuesLength(s, finite);
    hide Values;
  }

  lemma ValuesLength(s: Spec, finite: seq<real>)
    ensures |Values(s, finite)| == |Analyzed(s, finite)| - |Analyzed(s, finite)| % BlockSize(s)
  {
    hide Analyzed, BlockSize;
    RemainderAtMost(|Analyzed(s, finite)|, BlockSize(s));
  }

  /** With overflow nothing else counts but contamination. */
  lemma OverflowStatusIs(s: Spec, input: Input, env: Environment)
    requires Sound(env) && !env.overflow(MeansOf(s, input)).Fits?
    ensures Evaluation(s, input, env).body.status == if Contaminated(input) then CONTAMINATED else INSUFFICIENT_EVIDENCE
  {
    ReasonsMean(s, input, env);
    ContaminatedMeans(s, input);
    hide Contaminated, ReasonsOf, StatsOf, FloorMet, PrecisionMet, SpecValid, Sound, MeansOf, Finites, Values, Analyzed, KeptFlags;
    hide FlagsAccepted, AllFinite, MissesBaseline;
  }

  /** PASS: the interval shown is narrow enough and strictly better than the baseline, in the protocol's direction.
  FAIL: it is narrow enough and not so. */
  lemma PassAndFailMean(s: Spec, input: Input, env: Environment)
    requires Sound(env)
    ensures var b := Evaluation(s, input, env).body;
            b.status == PASS || b.status == FAIL ==>
              && SpecValid(s) && b.ciLow.Some? && b.ciHigh.Some? && b.precision.Some?
              && b.precision.value <= s.relativePrecision.value
              && (s.absolutePrecision.Some? ==> (b.ciHigh.value - b.ciLow.value) / 2.0 <= s.absolutePrecision.value.value)
              && (b.status == FAIL ==> input.baseline.Some?)
              && (input.baseline.Some? ==>
                    && input.baseline.value.Num?
                    && var x := input.baseline.value.value;
                       && (s.direction == "higher_is_better" ==> (b.status == PASS <==> b.ciLow.value > x))
                       && (s.direction == "lower_is_better" ==> (b.status == PASS <==> b.ciHigh.value < x)))
  {
    hide Evaluation, Sound, NarrowEnough, NotBeaten, MeansOf;
    if env.overflow(MeansOf(s, input)).Fits? {
      Decided(s, input, env);
      var b := Evaluation(s, input, env).body;
      if b.status == PASS || b.status == FAIL { OnFields(s, input, b); }
    } else {
      OverflowStatusIs(s, input, env);
    }
  }

  lemma Decided(s: Spec, input: Input, env: Environment)
    requires Sound(env) && env.overflow(MeansOf(s, input)).Fits?
    ensures var b := Evaluation(s, input, env).body;
            && (b.ciLow.Some? <==> b.precision.Some?) && (b.ciHigh.Some? <==> b.precision.Some?)
            && (b.status == PASS || b.status == FAIL ==>
                  && SpecValid(s) && input.baseline != Some(NonFinite)
                  && NarrowEnough(s, b) && b.precision.Some? && (b.status == FAIL <==> NotBeaten(s, input, b)))
  {
    var b := Evaluation(s, input, env).body;
    if SpecValid(s) && NarrowEnough(s, b) { assert b.precision.Some?; }
    StatusIs(s, input, env);
    BodyShows(s, input, env);
    StatsShow(s, input, env);
    hide Evaluation, Contaminated, FloorReached, Unsteady, SpecValid, NarrowEnough, NotBeaten, Values, Finites, MeansOf;
    hide CheckpointStats, Sound, HalfWidth, IsInterval, LagOne, DriftRatio, Verdict, ReasonsOf;
  }

  lemma OnFields(s: Spec, input: Input, b: Body)
    requires SpecValid(s) && NarrowEnough(s, b) && input.baseline != Some(NonFinite) && b.ciLow.Some? && b.ciHigh.Some?
    requires (b.status == PASS || b.status == FAIL) && (b.status == FAIL <==> NotBeaten(s, input, b))
    ensures b.precision.Some? && b.precision.value <= s.relativePrecision.value
    ensures s.absolutePrecision.Some? ==> (b.ciHigh.value - b.ciLow.value) / 2.0 <= s.absolutePrecision.value.value
    ensures b.status == FAIL ==> input.baseline.Some?
    ensures input.baseline.Some? ==>
              && input.baseline.value.Num?
              && (s.direction == "higher_is_better" ==> (b.status == PASS <==> b.ciLow.value > input.baseline.value.value))
              && (s.direction == "lower_is_better" ==> (b.status == PASS <==> b.ciHigh.value < input.baseline.value.value))
  {
    DirectionIsOneOfTwo(s);
    DirectionsDiffer();
    hide SpecValid;
  }

  lemma DirectionsDiffer()
    ensures "higher_is_better" != "lower_is_better"
  {
    assert "higher_is_better"[0] != "lower_is_better"[0];
  }

  lemma DirectionIsOneOfTwo(s: Spec)
    requires SpecValid(s)
    ensures s.direction == "higher_is_better" || s.direction == "lower_is_better"
  {
  }

  // ------------------------------------------------------------- the recorded reasons

  /** Every reason a result shows, as a condition on the input and the numbers shown; each is shown once. */
  lemma ReasonsShown(s: Spec, input: Input, env: Environment)
    requires Sound(env) && env.overflow(MeansOf(s, input)).Fits?
    ensures var b, r := Evaluation(s, input, env).body, Evaluation(s, input, env).body.reasons;
            var budget := if s.typed && s.maxObservations > 0 then s.maxObservations else 0;
            var least := if s.typed && s.minObservations > 0 then s.minObservations else 0;
            var finite, warm := |Finites(OrEmpty(input.observations))|, |Finites(OrEmpty(input.warmups))|;
            && (ObservationsInvalid in r <==> input.observations.None?) && (WarmupsInvalid in r <==> input.warmups.None?)
            && (ProtocolInvalid in r <==> !SpecValid(s)) && NumericOverflow !in r
            && (ContaminationDetected in r || NonFiniteObservation in r <==> Contaminated(input))
            && (BaselineInvalid in r <==> input.baseline == Some(NonFinite))
            && (InsufficientWarmups in r <==> warm < if s.typed && s.warmupCount > 0 then s.warmupCount else 0)
            && (BudgetExceeded in r <==> finite > budget)
            && (InsufficientObservations in r <==> (if finite < budget then finite else budget) < least)
            && (IncompleteFinalBlock in r <==> b.count != if finite < budget then finite else budget)
            && (AutocorrelationExceedsBound in r || DriftExceedsBound in r <==> Unsteady(s, b))
            && (PrecisionNotMet in r <==> FloorSeen(s, input, b) && !NarrowEnough(s, b))
            && (BaselineNotCleared in r <==> FloorSeen(s, input, b) && NotBeaten(s, input, b))
            && (forall i, j :: 0 <= i < j < |r| ==> r[i] != r[j])
  {
    InputReasonsShown(s, input, env);
    SampleReasonsShown(s, input, env);
    VerdictReasonsShown(s, input, env);
    ReasonsDeduped(s, input, env);
    DedupIsOnce(ReasonsOf(s, input, env));
    hide *;
  }

  lemma InputReasonsShown(s: Spec, input: Input, env: Environment)
    requires Sound(env) && env.overflow(MeansOf(s, input)).Fits?
    ensures var r := Evaluation(s, input, env).body.reasons;
            && (ObservationsInvalid in r <==> input.observations.None?) && (WarmupsInvalid in r <==> input.warmups.None?)
            && (ProtocolInvalid in r <==> !SpecValid(s)) && NumericOverflow !in r
            && (ContaminationDetected in r || NonFiniteObservation in r <==> Contaminated(input))
            && (BaselineInvalid in r <==> input.baseline == Some(NonFinite))
  {
    ReasonsMean(s, input, env);
    OtherReasonsMean(s, input, env);
    ContaminatedMeans(s, input);
    hide *;
  }

  lemma SampleReasonsShown(s: Spec, input: Input, env: Environment)
    requires Sound(env) && env.overflow(MeansOf(s, input)).Fits?
    ensures var b, r := Evaluation(s, input, env).body, Evaluation(s, input, env).body.reasons;
            var budget := if s.typed && s.maxObservations > 0 then s.maxObservations else 0;
            var least := if s.typed && s.minObservations > 0 then s.minObservations else 0;
            var finite, warm := |Finites(OrEmpty(input.observations))|, |Finites(OrEmpty(input.warmups))|;
            && (InsufficientWarmups in r <==> warm < if s.typed && s.warmupCount > 0 then s.warmupCount else 0)
            && (BudgetExceeded in r <==> finite > budget)
            && (InsufficientObservations in r <==> (if finite < budget then finite else budget) < least)
            && (IncompleteFinalBlock in r <==> b.count != if finite < budget then finite else budget)
            && (AutocorrelationExceedsBound in r || DriftExceedsBound in r <==> Unsteady(s, b))
  {
    BodyShows(s, input, env);
    StatsShow(s, input, env);
    ReasonsMean(s, input, env);
    OtherReasonsMean(s, input, env);
    UnsteadyMeans(s, input, env, Evaluation(s, input, env).body);
    SizesSpelled(s, Finites(OrEmpty(input.observations)));
    hide *;
  }

  /** The finite warm-ups and the analyzed values reach the protocol's minimum. */
  predicate FloorSeen(s: Spec, input: Input, b: Body) {
    && |Finites(OrEmpty(input.warmups))| >= (if s.typed && s.warmupCount > 0 then s.warmupCount else 0)
    && b.count >= (if s.typed && s.minObservations > 0 then s.minObservations else 0)
  }

  lemma VerdictReasonsShown(s: Spec, input: Input, env: Environment)
    requires Sound(env) && env.overflow(MeansOf(s, input)).Fits?
    ensures var b, r := Evaluation(s, input, env).body, Evaluation(s, input, env).body.reasons;
            && (PrecisionNotMet in r <==> FloorSeen(s, input, b) && !NarrowEnough(s, b))
            && (BaselineNotCleared in r <==> FloorSeen(s, input, b) && NotBeaten(s, input, b))
  {
    BodyShows(s, input, env);
    ReasonsMean(s, input, env);
    ReasonsDeduped(s, input, env);
    StatsAre(s, input, env);
    BoundsMean(s, input, Evaluation(s, input, env).body, StatsOf(s, input, env));
    FloorIsSeen(s, input, Evaluation(s, input, env).body);
    hide *;
  }

  lemma FloorIsSeen(s: Spec, input: Input, b: Body)
    requires b.count == |Values(s, Finites(OrEmpty(input.observations)))|
    ensures FloorSeen(s, input, b) <==> FloorMet(s, input)
  {
    hide Values, Finites;
  }

  /** What a result says of its input besides: what was measured, how much of it, under which digests, and the flags
  raised, in order, where all of them are texts. */
  lemma InputIsShown(s: Spec, input: Input, env: Environment)
    requires Sound(env)
    ensures var result, b := Evaluation(s, input, env), Evaluation(s, input, env).body;
            && (s.typed ==> b.metric == s.metric && result.estimand == s.estimand)
            && b.protocolHash == env.specHash(s) && result.artifactHash == env.bodyHash(b)
            && b.rawHash == env.rawHash(OrEmpty(input.warmups), OrEmpty(input.observations))
            && b.warmups == |OrEmpty(input.warmups)| && b.rawCount == |OrEmpty(input.observations)|
            && (Contaminated(input) && b.flags == [] ==> !AllFinite(OrEmpty(input.warmups)) || !AllFinite(OrEmpty(input.observations)))
            && (b.flags != [] ==> |b.flags| == |input.flags.value| && forall i :: 0 <= i < |b.flags| ==> input.flags.value[i] == Text(b.flags[i]))
  {
    ContaminatedMeans(s, input);
    if FlagsAccepted(input.flags) { TextsAre(input.flags.value); }
    hide StatsOf, ReasonsOf, Verdict, Sound, Values, Finites, Dedup, Contaminated, IsBlank, AllFinite;
  }

  lemma {:induction false} TextsAre(raw: seq<Flag>)
    requires forall i :: 0 <= i < |raw| ==> raw[i].Text?
    ensures |Texts(raw)| == |raw| && forall i :: 0 <= i < |raw| ==> raw[i] == Text(Texts(raw)[i])
  {
    if raw != [] { TextsAre(raw[..|raw| - 1]); }
  }

  lemma ReasonsDeduped(s: Spec, input: Input, env: Environment)
    requires Sound(env)
    ensures Evaluation(s, input, env).body.reasons == Dedup(ReasonsOf(s, input, env))
  {
    hide ReasonsOf, Dedup, StatsOf, Verdict, Sound;
  }

  lemma {:induction false} DedupIsOnce(r: seq<Reason>)
    ensures forall i, j :: 0 <= i < j < |Dedup(r)| ==> Dedup(r)[i] != Dedup(r)[j]
  {
    if r != [] {
      var init, last := Dedup(r[..|r| - 1]), r[|r| - 1];
      DedupIsOnce(r[..|r| - 1]);
      var d := Dedup(r);
      assert d == if last in init then init else init + [last];
      assert forall i :: 0 <= i < |init| ==> init[i] in init;
    }
  }

  lemma OtherReasonsMean(s: Spec, input: Input, env: Environment)
    requires Sound(env)
    ensures var r, finite, warm := ReasonsOf(s, input, env), Finites(OrEmpty(input.observations)), Finites(OrEmpty(input.warmups));
            && (ObservationsInvalid in r <==> input.observations.None?) && (WarmupsInvalid in r <==> input.warmups.None?)
            && (ProtocolInvalid in r <==> !SpecValid(s))
            && (InsufficientWarmups in r <==> |warm| < Natural(s, s.warmupCount))
            && (InsufficientObservations in r <==> |Analyzed(s, finite)| < Natural(s, s.minObservations))
  {
    OneGroup(s, input, env, ObservationsInvalid);
    OneGroup(s, input, env, WarmupsInvalid);
    OneGroup(s, input, env, ProtocolInvalid);
    OneGroup(s, input, env, InsufficientWarmups);
    OneGroup(s, input, env, InsufficientObservations);
    InputMeans(s, input, ObservationsInvalid);
    InputMeans(s, input, WarmupsInvalid);
    InputMeans(s, input, ProtocolInvalid);
    SampleSizes(s, input);
    hide *;
  }

  lemma SampleSizes(s: Spec, input: Input)
    ensures var r, finite, warm := SampleReasons(s, input), Finites(OrEmpty(input.observations)), Finites(OrEmpty(input.warmups));
            && (InsufficientWarmups in r <==> |warm| < Natural(s, s.warmupCount))
            && (InsufficientObservations in r <==> |Analyzed(s, finite)| < Natural(s, s.minObservations))
  {
    hide All, If, Finites, Analyzed, Values, FlagsAccepted, KeptFlags, AllFinite, Natural;
  }

  lemma SizesSpelled(s: Spec, finite: seq<real>)
    ensures var budget := if s.typed && s.maxObservations > 0 then s.maxObservations else 0;
            && |Analyzed(s, finite)| == (if |finite| < budget then |finite| else budget)
            && (|finite| > |Analyzed(s, finite)| <==> |finite| > budget)
    ensures Natural(s, s.warmupCount) == if s.typed && s.warmupCount > 0 then s.warmupCount else 0
    ensures Natural(s, s.minObservations) == if s.typed && s.minObservations > 0 then s.minObservations else 0
  {
  }

  lemma OneGroup(s: Spec, input: Input, env: Environment, x: Reason)
    requires Sound(env)
    ensures x.ObservationsInvalid? || x.WarmupsInvalid? || x.ProtocolInvalid? ==>
              (x in ReasonsOf(s, input, env) <==> x in InputReasons(s, input))
    ensures x.InsufficientWarmups? || x.InsufficientObservations? ==>
              (x in ReasonsOf(s, input, env) <==> x in SampleReasons(s, input))
  {
    ReasonsJoin(s, input, env, x);
    InputMeans(s, input, x);
    SampleRange(s, input, x);
    StabilityRange(s, MeansOf(s, input), env, x);
    VerdictRange(s, input, StatsOf(s, input, env), x);
    hide *;
  }
}
