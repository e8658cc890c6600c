/** What the sample statistics are, said by their defining equations rather than by how they are computed. */
module StatisticsLaws {
  import opened Options
  import opened Statistics

  // ------------------------------------------------------------------- sums and means

  /** The sum is the one additive function that gives each number for itself. */
  lemma {:induction false} SumAdds(a: seq<real>, b: seq<real>)
    ensures Sum(a + b) == Sum(a) + Sum(b)
    ensures forall x: real :: Sum([x]) == x
  {
    forall x: real ensures Sum([x]) == x { assert [x][..0] == []; }
    if b == [] {
      assert a + b == a;
    } else {
      SumAdds(a, b[..|b| - 1]);
      assert (a + b)[..|a + b| - 1] == a + b[..|b| - 1];
    }
  }

  /** The inner product is the one additive function that gives products for pairs. */
  lemma {:induction false} DotAdds(a: seq<real>, b: seq<real>, c: seq<real>, d: seq<real>)
    requires |a| == |b| && |c| == |d|
    ensures Dot(a + c, b + d) == Dot(a, b) + Dot(c, d)
    ensures forall x: real, y: real :: Dot([x], [y]) == x * y
  {
    forall x: real, y: real ensures Dot([x], [y]) == x * y { assert [x][..0] == [] && [y][..0] == []; }
    if c == [] {
      assert a + c == a && b + d == b;
    } else {
      DotAdds(a, b, c[..|c| - 1], d[..|d| - 1]);
      assert (a + c)[..|a + c| - 1] == a + c[..|c| - 1];
      assert (b + d)[..|b + d| - 1] == b + d[..|d| - 1];
    }
  }

  lemma MeanTimesCount(s: seq<real>)
    requires s != []
    ensures Mean(s) * |s| as real == Sum(s)
  {
    QuotientTimes(Sum(s), |s| as real);
  }

  lemma QuotientTimes(x: real, y: real)
    requires y != 0.0
    ensures x / y * y == x
  {
  }

  lemma CancelFactor(x: real, y: real, k: real)
    requires k != 0.0 && x * k == y * k
    ensures x == y
  {
    QuotientTimes(x * k, k);
    assert x * k / k == x && y * k / k == y;
  }

  // ----------------------------------------------------------------------- deviations

  /** `d` lists how far each value is from the mean of all. */
  predicate AreDeviations(s: seq<real>, d: seq<real>) {
    s != [] && |d| == |s| && forall i :: 0 <= i < |s| ==> d[i] == s[i] - Sum(s) / |s| as real
  }

  lemma DeviationsAre(s: seq<real>, d: seq<real>)
    requires AreDeviations(s, d)
    ensures d == Deviations(s)
  {
  }

  /** `_lag_one`: none below three values; zero where a side does not vary; otherwise the number whose product with
  the root of both sums of squares is the sum of products, over the values without the last and without the first. */
  lemma LagOneIs(values: seq<real>, root: real -> real, p: seq<real>, q: seq<real>)
    requires IsRoot(root) && |values| >= 3
    requires AreDeviations(values[..|values| - 1], p) && AreDeviations(values[1..], q)
    ensures var lag, below := LagOne(values, root), root(Dot(p, p) * Dot(q, q));
            && lag.Some?
            && (below == 0.0 ==> lag.value == 0.0)
            && (below != 0.0 ==> lag.value * below == Dot(p, q))
  {
    hide LagOne, LagTerms, Dot, IsRoot;
    TermsAre(values, p, q);
    LagOneNeedsNoClamp(values, root);
    var below := root(LagTerms(values).1);
    SameRoot(root, LagTerms(values).1, Dot(p, p) * Dot(q, q));
    if below != 0.0 { RatioTimes(LagOne(values, root).value, Dot(p, q), below); } else { NoVariation(values, root); }
  }

  lemma SameRoot(root: real -> real, x: real, y: real)
    requires x == y
    ensures root(x) == root(y)
  {
  }

  lemma TermsAre(values: seq<real>, p: seq<real>, q: seq<real>)
    requires |values| >= 3 && AreDeviations(values[..|values| - 1], p) && AreDeviations(values[1..], q)
    ensures LagTerms(values).0 == Dot(p, q) && LagTerms(values).1 == Dot(p, p) * Dot(q, q)
  {
    hide Deviations, Dot;
    DeviationsAre(values[..|values| - 1], p);
    DeviationsAre(values[1..], q);
    var a, b := Deviations(values[..|values| - 1]), Deviations(values[1..]);
    SameTerms(a, b, p, q);
    TermsUnfold(values);
    hide LagTerms;
    SameProduct(Dot(a, a), Dot(b, b), Dot(p, p), Dot(q, q));
  }

  lemma TermsUnfold(values: seq<real>)
    requires |values| >= 3
    ensures var a, b := Deviations(values[..|values| - 1]), Deviations(values[1..]);
            LagTerms(values).0 == Dot(a, b) && LagTerms(values).1 == Dot(a, a) * Dot(b, b)
  {
    hide Dot, Mean;
  }

  lemma SameProduct(a: real, b: real, p: real, q: real)
    requires a == p && b == q
    ensures a * b == p * q
  {
  }

  lemma SameTerms(a: seq<real>, b: seq<real>, p: seq<real>, q: seq<real>)
    requires |p| == |q| && a == p && b == q
    ensures Dot(a, b) == Dot(p, q) && Dot(a, a) == Dot(p, p) && Dot(b, b) == Dot(q, q)
  {
  }

  lemma NoVariation(values: seq<real>, root: real -> real)
    requires |values| >= 3 && root(LagTerms(values).1) == 0.0
    ensures LagOne(values, root) == Some(0.0)
  {
    hide LagTerms;
  }

  lemma ShortSamples(values: seq<real>, root: real -> real)
    ensures LagOne(values, root).None? <==> |values| <= 2
    ensures DriftRatio(values).None? <==> |values| <= 3
  {
    hide LagTerms, Mean;
  }

  /** `_drift_ratio`: how far the means of the two halves are apart, the first half being the shorter one, in units
  of the overall mean or of 1e-12. */
  lemma DriftRatioIs(values: seq<real>)
    requires |values| >= 4
    ensures var n := |values| / 2;
            var left, right, all := Mean(values[..n]), Mean(values[n..]), Mean(values);
            var unit := if Abs(all) < 0.000000000001 then 0.000000000001 else Abs(all);
            DriftRatio(values).Some? && DriftRatio(values).value * unit == Abs(right - left)
  {
    hide DriftRatio, Sum, Abs, Scale, Mean;
    var n := |values| / 2;
    DriftUnfolds(values);
    UnitIs(Mean(values));
    RatioTimes(DriftRatio(values).value, Abs(Mean(values[n..]) - Mean(values[..n])), Scale(Mean(values)));
  }

  lemma RatioTimes(r: real, x: real, y: real)
    requires y != 0.0 && r == x / y
    ensures r * y == x
  {
  }

  lemma DriftUnfolds(values: seq<real>)
    requires |values| >= 4
    ensures var n := |values| / 2; DriftRatio(values) == Some(Abs(Mean(values[n..]) - Mean(values[..n])) / Scale(Mean(values)))
  {
    hide Mean, Abs, Scale;
  }

  lemma UnitIs(x: real)
    ensures Scale(x) == (if Abs(x) < 0.000000000001 then 0.000000000001 else Abs(x)) && Scale(x) != 0.0
  {
  }

  /** Its square times n(n - 1) is the sum of squared deviations. */
  lemma StandardErrorIs(values: seq<real>, root: real -> real, d: seq<real>)
    requires IsRoot(root) && |values| >= 2 && root(|values| as real) != 0.0 && AreDeviations(values, d)
    ensures var e := StandardError(values, root);
            e >= 0.0 && e * e * (|values| as real * (|values| - 1) as real) == Dot(d, d)
  {
    DeviationsAre(values, d);
    SquaresAreNonNegative(d);
    var n, m, sum := |values| as real, (|values| - 1) as real, Dot(d, d);
    hide Dot, Deviations, AreDeviations;
    QuotientIsPositive(sum, m);
    ErrorSquared(root, sum, n, m);
  }

  lemma QuotientIsPositive(x: real, y: real)
    requires x >= 0.0 && y > 0.0
    ensures x / y >= 0.0
  {
  }

  lemma ErrorSquared(root: real -> real, sum: real, n: real, m: real)
    requires IsRoot(root) && n > 0.0 && m > 0.0 && sum / m >= 0.0 && root(n) != 0.0
    ensures var e := root(sum / m) / root(n); e >= 0.0 && e * e * (n * m) == sum
  {
    var a, b := root(sum / m), root(n);
    assert a * a == sum / m && b * b == n && a >= 0.0 && b >= 0.0;
    hide IsRoot;
    QuotientIsPositive(a, b);
    QuotientTimes(a, b);
    QuotientTimes(sum, m);
    SquareTimes(a / b, b, m, a);
    assert (a / b) * (a / b) * (b * b * m) == a * a * m;
  }

  lemma SquareTimes(e: real, b: real, m: real, a: real)
    requires e * b == a
    ensures e * e * (b * b * m) == a * a * m
  {
    assert e * e * (b * b * m) == (e * b) * (e * b) * m;
  }

  // ---------------------------------------------------------------- the critical value

  /** `_normal_critical`: z plus a correction in powers of the inverse degrees of freedom, here cleared of them, and
  infinite without degrees of freedom. */
  lemma CriticalIs(z: real, df: int)
    requires df >= 1
    ensures var n, (a, b, c) := df as real, Coefficients(z);
            Critical(z, df).Finite? && Critical(z, df).value * (n * n * n) == z * (n * n * n) + a * (n * n) + b * n + c
    ensures Critical(z, 0).Infinite?
  {
    hide Coefficients, Cubic, Critical, Expansion;
    QuotientTimes(1.0, df as real);
    CriticalUnfolds(z, 0);
    CriticalUnfolds(z, df);
    Cleared(z, Coefficients(z).0, Coefficients(z).1, Coefficients(z).2, df as real, 1.0 / df as real);
  }

  /** The coefficients of that correction. */
  lemma CoefficientsAre(z: real)
    ensures var (a, b, c) := Coefficients(z);
            && 4.0 * a == z * z * z + z
            && 96.0 * b == 5.0 * (z * z * z * z * z) + 16.0 * (z * z * z) + 3.0 * z
            && 384.0 * c == 3.0 * (z * z * z * z * z * z * z) + 19.0 * (z * z * z * z * z) + 17.0 * (z * z * z) - 15.0 * z
  {
    Powers(z);
    hide Coefficients;
  }

  lemma CriticalUnfolds(z: real, df: int)
    ensures Critical(z, df) ==
      if df <= 0 then Infinite
      else Finite(z + Cubic(Coefficients(z).0, Coefficients(z).1, Coefficients(z).2, 1.0 / df as real))
  {
  }

  lemma Powers(z: real)
    ensures Coefficients(z) == ((z * z * z + z) / 4.0,
                                (5.0 * (z * z * z * z * z) + 16.0 * (z * z * z) + 3.0 * z) / 96.0,
                                (3.0 * (z * z * z * z * z * z * z) + 19.0 * (z * z * z * z * z) + 17.0 * (z * z * z) - 15.0 * z) / 384.0)
  {
    assert z * z * z * (z * z) == z * z * z * z * z;
    assert z * z * z * (z * z) * (z * z) == z * z * z * z * z * z * z;
  }

  lemma Cleared(z: real, a: real, b: real, c: real, n: real, i: real)
    requires i * n == 1.0
    ensures (z + Cubic(a, b, c, i)) * (n * n * n) == z * (n * n * n) + a * (n * n) + b * n + c
  {
    InversePowers(n, i, n * n, n * n * n);
    hide Cubic;
    CubicTimes(a, b, c, i, n * n * n);
  }

  lemma Assoc(a: real, b: real, c: real)
    ensures a * (b * c) == (a * b) * c
  {
  }

  lemma InversePowers(n: real, i: real, square: real, cube: real)
    requires i * n == 1.0 && square == n * n && cube == square * n
    ensures i * cube == square && (i * i) * cube == n && (i * i * i) * cube == 1.0
  {
    Assoc(i, n, n);
    Assoc(i, square, n);
    Assoc(i, i, cube);
    Assoc(i * i, i, cube);
    Assoc(i, i, square);
  }

  lemma CubicTimes(a: real, b: real, c: real, i: real, k: real)
    ensures Cubic(a, b, c, i) * k == a * (i * k) + b * (i * i * k) + c * (i * i * i * k)
  {
  }
}
