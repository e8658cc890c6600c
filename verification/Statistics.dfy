/** The sample statistics behind sequential measurement, in exact real arithmetic.

The square root is any function `root` with root(x) >= 0 and root(x)^2 == x for x >= 0. */
module Statistics {
  import opened Options

  ghost predicate IsRoot(root: real -> real) {
    forall x: real :: x >= 0.0 ==> root(x) >= 0.0 && root(x) * root(x) == x
  }

  function Sum(s: seq<real>): (r: real) {
    if s == [] then 0.0 else Sum(s[..|s| - 1]) + s[|s| - 1]
  }

  function Mean(s: seq<real>): (r: real)
    requires s != []
  {
    Sum(s) / |s| as real
  }

  function Dot(a: seq<real>, b: seq<real>): (r: real)
    requires |a| == |b|
  {
    if a == [] then 0.0 else Dot(a[..|a| - 1], b[..|b| - 1]) + a[|a| - 1] * b[|b| - 1]
  }

  function Deviations(s: seq<real>): (d: seq<real>)
    requires s != []
    ensures |d| == |s|
  {
    var m := Mean(s);
    seq(|s|, i requires 0 <= i < |s| => s[i] - m)
  }

  function Abs(x: real): (a: real)
    ensures a >= 0.0 && (a == x || a == -x)
  {
    if x < 0.0 then -x else x
  }

  function Clamp(x: real): (c: real)
    ensures -1.0 <= c <= 1.0
  {
    if x < -1.0 then -1.0 else if x > 1.0 then 1.0 else x
  }

  /** Numerator and squared denominator of the lag-one correlation. */
  function LagTerms(values: seq<real>): (r: (real, real))
    requires |values| >= 3
  {
    var first, second := Deviations(values[..|values| - 1]), Deviations(values[1..]);
    (Dot(first, second), Dot(first, first) * Dot(second, second))
  }

  /** `_lag_one`. */
  function LagOne(values: seq<real>, root: real -> real): (r: Option<real>) {
    if |values| < 3 then None
    else
      var (numerator, square) := LagTerms(values);
      var denominator := root(square);
      if denominator == 0.0 then Some(0.0) else Some(Clamp(numerator / denominator))
  }

  const SCALE_FLOOR := 0.000000000001

  function Scale(x: real): (s: real)
    ensures s >= SCALE_FLOOR && s >= Abs(x)
  {
    if Abs(x) < SCALE_FLOOR then SCALE_FLOOR else Abs(x)
  }

  /** `_drift_ratio`. */
  function DriftRatio(values: seq<real>): (r: Option<real>) {
    if |values| < 4 then None
    else
      var mid := |values| / 2;
      Some(Abs(Mean(values[mid..]) - Mean(values[..mid])) / Scale(Mean(values)))
  }

  lemma DriftIsNonNegative(values: seq<real>)
    ensures DriftRatio(values).Some? ==> DriftRatio(values).value >= 0.0
  {
  }

  /** `statistics.stdev(values) / sqrt(len(values))`. */
  function StandardError(values: seq<real>, root: real -> real): (r: real)
    requires |values| >= 2
    requires root(|values| as real) != 0.0
  {
    root(Dot(Deviations(values), Deviations(values)) / (|values| - 1) as real) / root(|values| as real)
  }

  // ---------------------------------------------------------- Cauchy-Schwarz

  lemma {:induction false} SquaresAreNonNegative(a: seq<real>)
    ensures Dot(a, a) >= 0.0
  {
    if a != [] {
      SquaresAreNonNegative(a[..|a| - 1]);
      SquareIsNonNegative(a[|a| - 1]);
    }
  }

  lemma SquareIsNonNegative(x: real)
    ensures x * x >= 0.0
  {
    if x < 0.0 { NegatedSquare(x); NonNegativeProduct(-x, -x); } else { NonNegativeProduct(x, x); }
  }

  /** One more coordinate keeps the inequality. */
  lemma CauchyStep(p: real, q: real, c: real, x: real, y: real)
    requires p >= 0.0 && q >= 0.0 && c * c <= p * q
    ensures (c + x * y) * (c + x * y) <= (p + x * x) * (q + y * y)
  {
    var cross := p * y * y + q * x * x - 2.0 * c * x * y;
    if p == 0.0 {
      assert c * c <= 0.0;
      if c != 0.0 { NonZeroSquare(c); }
      SquareIsNonNegative(x);
      NonNegativeProduct(q, x * x);
      assert cross == q * (x * x);
    } else {
      var u := p * y - c * x;
      SquareIsNonNegative(u);
      SquareIsNonNegative(x);
      NonNegativeProduct(p * q - c * c, x * x);
      assert p * cross == u * u + (p * q - c * c) * (x * x);
      PositiveFactor(p, cross);
    }
    assert (p + x * x) * (q + y * y) - (c + x * y) * (c + x * y) == (p * q - c * c) + cross;
  }

  lemma NonZeroSquare(c: real)
    requires c != 0.0
    ensures c * c > 0.0
  {
    if c > 0.0 { PositiveProduct(c, c); } else { PositiveProduct(-c, -c); NegatedSquare(c); }
  }

  lemma NegatedSquare(c: real)
    ensures (-c) * (-c) == c * c
  {
  }

  lemma PositiveProduct(a: real, b: real)
    requires a > 0.0 && b > 0.0
    ensures a * b > 0.0
  {
  }

  lemma NonNegativeProduct(a: real, b: real)
    requires a >= 0.0 && b >= 0.0
    ensures a * b >= 0.0
  {
  }

  lemma PositiveFactor(p: real, x: real)
    requires p > 0.0 && p * x >= 0.0
    ensures x >= 0.0
  {
    if x < 0.0 { NegativeProduct(p, x); }
  }

  lemma NegativeProduct(p: real, x: real)
    requires p > 0.0 && x < 0.0
    ensures p * x < 0.0
  {
  }

  lemma {:induction false} CauchySchwarz(a: seq<real>, b: seq<real>)
    requires |a| == |b|
    ensures Dot(a, b) * Dot(a, b) <= Dot(a, a) * Dot(b, b)
  {
    if a != [] {
      var a', b' := a[..|a| - 1], b[..|b| - 1];
      CauchySchwarz(a', b');
      SquaresAreNonNegative(a');
      SquaresAreNonNegative(b');
      CauchyStep(Dot(a', a'), Dot(b', b'), Dot(a', b'), a[|a| - 1], b[|b| - 1]);
    }
  }

  lemma SquareOrder(c: real, s: real)
    requires s >= 0.0 && c * c <= s * s
    ensures -s <= c <= s
  {
    if c > s { SquareGrows(s, c); }
    if -c > s { SquareGrows(s, -c); NegatedSquare(c); }
  }

  lemma SquareGrows(s: real, c: real)
    requires 0.0 <= s < c
    ensures s * s < c * c
  {
    PositiveProduct(c - s, c + s);
    assert c * c - s * s == (c - s) * (c + s);
  }

  lemma UnitRatio(c: real, s: real)
    requires s > 0.0 && -s <= c <= s
    ensures -1.0 <= c / s <= 1.0
  {
  }

  lemma LagTermsBound(values: seq<real>)
    requires |values| >= 3
    ensures LagTerms(values).0 * LagTerms(values).0 <= LagTerms(values).1
  {
    hide Dot, Deviations;
    CauchySchwarz(Deviations(values[..|values| - 1]), Deviations(values[1..]));
  }

  /** The correlation lies in [-1, 1] before it is clamped, so in exact arithmetic the clamp
      never changes a value. */
  lemma LagOneNeedsNoClamp(values: seq<real>, root: real -> real)
    requires |values| >= 3 && IsRoot(root)
    ensures var (numerator, square) := LagTerms(values);
            && square >= 0.0
            && (root(square) != 0.0 ==>
                  && -1.0 <= numerator / root(square) <= 1.0
                  && LagOne(values, root) == Some(numerator / root(square)))
  {
    hide LagTerms, IsRoot;
    LagTermsBound(values);
    RootBounds(LagTerms(values).0, LagTerms(values).1, root);
  }

  lemma RootBounds(numerator: real, square: real, root: real -> real)
    requires IsRoot(root) && numerator * numerator <= square
    ensures square >= 0.0 && root(square) >= 0.0
    ensures root(square) != 0.0 ==> -1.0 <= numerator / root(square) <= 1.0
  {
    SquareIsNonNegative(numerator);
    SquareOrder(numerator, root(square));
    if root(square) != 0.0 { UnitRatio(numerator, root(square)); }
  }

  // ------------------------------------------------------ the critical value

  datatype Extended = Finite(value: real) | Infinite

  /** Coefficients of the Cornish-Fisher expansion in powers of 1/df. */
  function Coefficients(z: real): (r: (real, real, real)) {
    var z2 := z * z;
    var z3 := z2 * z;
    var z5 := z3 * z2;
    var z7 := z5 * z2;
    ((z3 + z) / 4.0, (5.0 * z5 + 16.0 * z3 + 3.0 * z) / 96.0, (3.0 * z7 + 19.0 * z5 + 17.0 * z3 - 15.0 * z) / 384.0)
  }

  function Expansion(z: real, i: real): (r: real) {
    var (a, b, c) := Coefficients(z);
    z + Cubic(a, b, c, i)
  }

  function Cubic(a: real, b: real, c: real, i: real): (r: real) {
    a * i + b * (i * i) + c * (i * i * i)
  }

  /** `_normal_critical`, given the normal quantile `z` of its alpha. */
  function Critical(z: real, df: int): (r: Extended) {
    if df <= 0 then Infinite else Finite(Expansion(z, 1.0 / df as real))
  }

  lemma CoefficientBounds(z: real)
    requires z > 0.0
    ensures var (a, b, c) := Coefficients(z); a >= z / 4.0 && b >= 0.0 && c >= -(15.0 * z / 384.0)
  {
    var z2 := z * z;
    NonNegativeProduct(z, z);
    NonNegativeProduct(z2, z);
    NonNegativeProduct(z2 * z, z2);
    NonNegativeProduct(z2 * z * z2, z2);
  }

  lemma UnitProduct(x: real, y: real)
    requires 0.0 <= x <= 1.0 && 0.0 <= y <= 1.0
    ensures 0.0 <= x * y <= 1.0
  {
    NonNegativeProduct(x, y);
    NonNegativeProduct(x, 1.0 - y);
    assert x * (1.0 - y) == x - x * y;
  }

  lemma ScaledBelow(c: real, k: real, q: real)
    requires c >= -k && k >= 0.0 && 0.0 <= q <= 3.0
    ensures c * q >= -(3.0 * k)
  {
    NonNegativeProduct(c + k, q);
    NonNegativeProduct(k, 3.0 - q);
    assert (c + k) * q == c * q + k * q;
    assert k * (3.0 - q) == 3.0 * k - k * q;
  }

  /** With those bounds the expansion grows with 1/df: the one negative term is too small. */
  lemma ExpansionGrows(z: real, i: real, j: real)
    requires z > 0.0 && 0.0 <= i <= j <= 1.0
    ensures Expansion(z, i) <= Expansion(z, j)
  {
    hide Coefficients, Cubic;
    CoefficientBounds(z);
    var (a, b, c) := Coefficients(z);
    CubicGrows(a, b, c, z, i, j);
  }

  lemma CubicGrows(a: real, b: real, c: real, z: real, i: real, j: real)
    requires z > 0.0 && a >= z / 4.0 && b >= 0.0 && c >= -(15.0 * z / 384.0) && 0.0 <= i <= j <= 1.0
    ensures Cubic(a, b, c, i) <= Cubic(a, b, c, j)
  {
    var q := i * i + i * j + j * j;
    UnitProduct(i, i); UnitProduct(i, j); UnitProduct(j, j);
    NonNegativeProduct(b, i + j);
    ScaledBelow(c, 15.0 * z / 384.0, q);
    NonNegativeProduct(j - i, a + b * (i + j) + c * q);
    CubicDifference(a, b, c, i, j);
  }

  lemma CubicDifference(a: real, b: real, c: real, i: real, j: real)
    ensures Cubic(a, b, c, j) - Cubic(a, b, c, i) == (j - i) * (a + b * (i + j) + c * (i * i + i * j + j * j))
  {
    calc {
      (j - i) * (a + b * (i + j) + c * (i * i + i * j + j * j));
      a * (j - i) + b * ((j - i) * (i + j)) + c * ((j - i) * (i * i + i * j + j * j));
    }
    assert (j - i) * (i + j) == j * j - i * i;
    assert (j - i) * (i * i + i * j + j * j) == j * j * j - i * i * i;
  }

  lemma InverseBounds(n: int, m: int)
    requires 1 <= n <= m
    ensures 0.0 < 1.0 / m as real <= 1.0 / n as real <= 1.0
  {
  }

  /** The critical value is never below the normal one and never grows with the degrees of
      freedom. */
  lemma CriticalIsConservative(z: real, df: int, more: int)
    requires z > 0.0 && 1 <= df <= more
    ensures Critical(z, df).Finite? && Critical(z, more).Finite?
    ensures z <= Critical(z, more).value <= Critical(z, df).value
  {
    InverseBounds(df, more);
    ExpansionGrows(z, 1.0 / more as real, 1.0 / df as real);
    ExpansionGrows(z, 0.0, 1.0 / more as real);
    assert Expansion(z, 0.0) == z;
  }
}
