/**
 * The trend line behind a signal forecast (internal/analyzer/analyzer.go, linearTrend; the replay in
 * internal/backtest/backtest.go fits the same line). Floating point is modelled by `real`; samples are
 * handled as vectors, so that the normal equations become statements about inner products.
 */
module LinearTrend {
  import opened Numbers

  type Vector = seq<real>

  // ----- vectors -----

  function Total(v: Vector): real {
    if v == [] then 0.0 else Total(v[..|v| - 1]) + v[|v| - 1]
  }

  function Times(a: Vector, b: Vector): Vector
    requires |a| == |b|
  {
    seq(|a|, i requires 0 <= i < |a| => a[i] * b[i])
  }

  function Combine(k: real, a: Vector, l: real, b: Vector): Vector
    requires |a| == |b|
  {
    seq(|a|, i requires 0 <= i < |a| => k * a[i] + l * b[i])
  }

  function Dot(a: Vector, b: Vector): real
    requires |a| == |b|
  {
    Total(Times(a, b))
  }

  function Ones(n: nat): Vector {
    seq(n, _ => 1.0)
  }

  lemma Distribute(k: real, a: real, b: real)
    ensures k * (a + b) == k * a + k * b
    ensures k * (a - b) == k * a - k * b
  {
  }

  lemma CombineTake(k: real, a: Vector, l: real, b: Vector, n: nat)
    requires n <= |a| == |b|
    ensures Combine(k, a, l, b)[..n] == Combine(k, a[..n], l, b[..n])
  {
    forall i | 0 <= i < n ensures Combine(k, a, l, b)[i] == Combine(k, a[..n], l, b[..n])[i] {
      assert a[..n][i] == a[i] && b[..n][i] == b[i];
    }
  }

  lemma {:induction false} TotalCombine(k: real, a: Vector, l: real, b: Vector)
    requires |a| == |b|
    ensures Total(Combine(k, a, l, b)) == k * Total(a) + l * Total(b)
  {
    if a != [] {
      var n := |a| - 1;
      TotalCombine(k, a[..n], l, b[..n]);
      CombineTake(k, a, l, b, n);
      Distribute(k, Total(a[..n]), a[n]);
      Distribute(l, Total(b[..n]), b[n]);
    }
  }

  /** The inner product is linear in its first argument. */
  lemma DotCombine(k: real, a: Vector, l: real, b: Vector, z: Vector)
    requires |a| == |b| == |z|
    ensures Dot(Combine(k, a, l, b), z) == k * Dot(a, z) + l * Dot(b, z)
  {
    var left, right := Times(Combine(k, a, l, b), z), Combine(k, Times(a, z), l, Times(b, z));
    forall i | 0 <= i < |a| ensures left[i] == right[i] {
      CombineProduct(k, a[i], l, b[i], z[i]);
    }
    assert left == right;
    TotalCombine(k, Times(a, z), l, Times(b, z));
  }

  lemma CombineProduct(k: real, x: real, l: real, y: real, z: real)
    ensures (k * x + l * y) * z == k * (x * z) + l * (y * z)
  {
    Distribute(z, k * x, l * y);
    assert (k * x) * z == k * (x * z) && (l * y) * z == l * (y * z);
  }

  lemma DotSymmetric(a: Vector, b: Vector)
    requires |a| == |b|
    ensures Dot(a, b) == Dot(b, a)
  {
    assert Times(a, b) == Times(b, a);
  }

  lemma {:induction false} TotalOfNonNegative(v: Vector)
    requires forall i :: 0 <= i < |v| ==> v[i] >= 0.0
    ensures forall i :: 0 <= i < |v| ==> Total(v) >= v[i]
    ensures Total(v) >= 0.0
  {
    if v != [] {
      TotalOfNonNegative(v[..|v| - 1]);
      assert forall i :: 0 <= i < |v| - 1 ==> v[i] == v[..|v| - 1][i];
    }
  }

  lemma {:induction false} TotalOfConstant(n: nat, v: Vector, c: real)
    requires |v| == n && forall i :: 0 <= i < n ==> v[i] == c
    ensures Total(v) == n as real * c
  {
    if n > 0 {
      TotalOfConstant(n - 1, v[..n - 1], c);
      assert n as real * c == (n - 1) as real * c + c;
    }
  }

  lemma SquareIsNonNegative(d: real)
    ensures d * d >= 0.0
  {
    if d < 0.0 {
      assert d * d == -d * -d;
    }
  }

  lemma SameSign(d: real, e: real, product: real)
    requires d * e == product && product <= 0.0
    ensures d <= 0.0 || e <= 0.0
    ensures d >= 0.0 || e >= 0.0
  {
  }

  lemma Between(d: real)
    requires 0.0 <= d <= 0.0
    ensures d == 0.0
  {
  }

  lemma OnlyZeroHasNoSquare(d: real, square: real)
    requires d * d == square && square <= 0.0
    ensures d == 0.0
  {
    SameSign(d, d, square);
    Between(d);
  }

  lemma DotSelfIsNonNegative(a: Vector)
    ensures Dot(a, a) >= 0.0
    ensures forall i :: 0 <= i < |a| ==> Times(a, a)[i] <= Dot(a, a)
  {
    forall i | 0 <= i < |a| ensures Times(a, a)[i] >= 0.0 {
      SquareIsNonNegative(a[i]);
    }
    TotalOfNonNegative(Times(a, a));
  }

  lemma OnlyZeroHasNoLength(a: Vector)
    requires Dot(a, a) <= 0.0
    ensures forall i :: 0 <= i < |a| ==> a[i] == 0.0
  {
    DotSelfIsNonNegative(a);
    forall i | 0 <= i < |a| ensures a[i] == 0.0 {
      OnlyZeroHasNoSquare(a[i], Times(a, a)[i]);
    }
  }

  lemma DotZero(a: Vector, b: Vector)
    requires |a| == |b| && forall i :: 0 <= i < |a| ==> a[i] == 0.0
    ensures Dot(a, b) == 0.0
  {
    TotalOfConstant(|a|, Times(a, b), 0.0);
  }

  lemma TimesOnes(v: Vector)
    ensures Times(v, Ones(|v|)) == v
  {
    forall i | 0 <= i < |v| ensures Times(v, Ones(|v|))[i] == v[i] {
    }
  }

  lemma DotOnes(n: nat)
    ensures Dot(Ones(n), Ones(n)) == n as real
  {
    TotalOfConstant(n, Times(Ones(n), Ones(n)), 1.0);
  }

  // ----- lines through the points (xs[i], ys[i]) -----

  function Line(xs: Vector, slope: real, intercept: real): Vector {
    Combine(intercept, Ones(|xs|), slope, xs)
  }

  function Residuals(xs: Vector, ys: Vector, slope: real, intercept: real): Vector
    requires |xs| == |ys|
  {
    Combine(1.0, ys, -1.0, Line(xs, slope, intercept))
  }

  function SquaredError(xs: Vector, ys: Vector, slope: real, intercept: real): real
    requires |xs| == |ys|
  {
    var r := Residuals(xs, ys, slope, intercept);
    Dot(r, r)
  }

  /** No other line fits the points better. */
  ghost predicate IsLeastSquares(xs: Vector, ys: Vector, slope: real, intercept: real)
    requires |xs| == |ys|
  {
    forall m, c :: SquaredError(xs, ys, slope, intercept) <= SquaredError(xs, ys, m, c)
  }

  /** The normal equations: residuals sum to zero and carry no trend any more. */
  ghost predicate IsBalanced(xs: Vector, ys: Vector, slope: real, intercept: real)
    requires |xs| == |ys|
  {
    var r := Residuals(xs, ys, slope, intercept);
    Dot(r, Ones(|xs|)) == 0.0 && Dot(r, xs) == 0.0
  }

  /** From a balanced line, every other line is worse by the squared distance between the two. */
  lemma ErrorOfAnotherLine(xs: Vector, ys: Vector, slope: real, intercept: real, m: real, c: real)
    requires |xs| == |ys| && IsBalanced(xs, ys, slope, intercept)
    ensures var gap := Line(xs, slope - m, intercept - c);
      SquaredError(xs, ys, m, c) == SquaredError(xs, ys, slope, intercept) + Dot(gap, gap)
  {
    var r, gap := Residuals(xs, ys, slope, intercept), Line(xs, slope - m, intercept - c);
    var moved := Residuals(xs, ys, m, c);
    forall i | 0 <= i < |xs| ensures moved[i] == 1.0 * r[i] + 1.0 * gap[i] {
      Distribute(xs[i], slope, m);
    }
    assert moved == Combine(1.0, r, 1.0, gap);
    DotCombine(1.0, r, 1.0, gap, moved);
    DotSymmetric(r, moved);
    DotSymmetric(gap, moved);
    DotCombine(1.0, r, 1.0, gap, r);
    DotCombine(1.0, r, 1.0, gap, gap);
    DotSymmetric(r, gap);
    DotCombine(intercept - c, Ones(|xs|), slope - m, xs, r);
    DotSymmetric(Ones(|xs|), r);
    DotSymmetric(xs, r);
  }

  lemma BalancedIsLeastSquares(xs: Vector, ys: Vector, slope: real, intercept: real)
    requires |xs| == |ys| && IsBalanced(xs, ys, slope, intercept)
    ensures IsLeastSquares(xs, ys, slope, intercept)
  {
    forall m, c ensures SquaredError(xs, ys, slope, intercept) <= SquaredError(xs, ys, m, c) {
      ErrorOfAnotherLine(xs, ys, slope, intercept, m, c);
      DotSelfIsNonNegative(Line(xs, slope - m, intercept - c));
    }
  }

  /** With two different x the least-squares line is unique. */
  lemma LeastSquaresIsUnique(xs: Vector, ys: Vector, i: nat, j: nat, slope: real, intercept: real, m: real, c: real)
    requires |xs| == |ys| && i < |xs| && j < |xs| && xs[i] != xs[j]
    requires IsBalanced(xs, ys, slope, intercept) && IsLeastSquares(xs, ys, m, c)
    ensures m == slope && c == intercept
  {
    var gap := Line(xs, slope - m, intercept - c);
    ErrorOfAnotherLine(xs, ys, slope, intercept, m, c);
    assert SquaredError(xs, ys, m, c) <= SquaredError(xs, ys, slope, intercept);
    OnlyZeroHasNoLength(gap);
    assert gap[i] == 0.0 && gap[j] == 0.0;
    Distribute(slope - m, xs[i], xs[j]);
  }

  // ----- the fitted line -----

  function Centred(v: Vector, mean: real): Vector {
    Combine(1.0, v, -mean, Ones(|v|))
  }

  /** `mean` is the mean of `v`; the division is avoided by multiplying with the count. */
  ghost predicate IsMean(v: Vector, mean: real) {
    mean * Dot(Ones(|v|), Ones(|v|)) == Dot(v, Ones(|v|))
  }

  lemma CentredSumsToZero(v: Vector, mean: real)
    requires IsMean(v, mean)
    ensures Dot(Centred(v, mean), Ones(|v|)) == 0.0
  {
    DotCombine(1.0, v, -mean, Ones(|v|), Ones(|v|));
    Cancel(mean, Dot(Ones(|v|), Ones(|v|)), Dot(v, Ones(|v|)));
  }

  lemma Cancel(k: real, n: real, sum: real)
    requires k * n == sum
    ensures 1.0 * sum + -k * n == 0.0
  {
  }

  lemma BothZero(k: real, a: real, l: real, b: real)
    requires a == 0.0 && b == 0.0
    ensures k * a + l * b == 0.0
  {
  }

  lemma CombineOrthogonal(k: real, a: Vector, l: real, b: Vector, z: Vector)
    requires |a| == |b| == |z| && Dot(a, z) == 0.0 && Dot(b, z) == 0.0
    ensures Dot(Combine(k, a, l, b), z) == 0.0
  {
    DotCombine(k, a, l, b, z);
    BothZero(k, Dot(a, z), l, Dot(b, z));
  }

  lemma CombineCancels(a: Vector, m: real, b: Vector, z: Vector)
    requires |a| == |b| == |z| && m * Dot(b, z) == Dot(a, z)
    ensures Dot(Combine(1.0, a, -m, b), z) == 0.0
  {
    DotCombine(1.0, a, -m, b, z);
    assert Dot(Combine(1.0, a, -m, b), z) == 1.0 * Dot(a, z) + -m * Dot(b, z);
    Cancel(m, Dot(b, z), Dot(a, z));
  }

  /** The residuals of a line through the centre are the centred values minus the slope times the centred x. */
  lemma CentredResiduals(xs: Vector, ys: Vector, m: real, c: real, mx: real, my: real)
    requires |xs| == |ys| && c == my - m * mx
    ensures Residuals(xs, ys, m, c) == Combine(1.0, Centred(ys, my), -m, Centred(xs, mx))
  {
    var left, right := Residuals(xs, ys, m, c), Combine(1.0, Centred(ys, my), -m, Centred(xs, mx));
    forall i | 0 <= i < |xs| ensures left[i] == right[i] {
      assert left[i] == ys[i] - (c + m * xs[i]);
      assert Centred(xs, mx)[i] == xs[i] - mx && Centred(ys, my)[i] == ys[i] - my;
      CentredResidual(xs[i], ys[i], m, mx, my);
    }
  }

  lemma CentredResidual(x: real, y: real, m: real, mx: real, my: real)
    ensures y - ((my - m * mx) + m * x) == 1.0 * (y - my) + -m * (x - mx)
  {
    Distribute(m, x, mx);
    assert -m * (x - mx) == -(m * (x - mx));
  }

  /** What is orthogonal to the ones and to the centred x is orthogonal to x. */
  lemma OrthogonalToCentred(r: Vector, xs: Vector, mx: real)
    requires |r| == |xs| && Dot(r, Ones(|xs|)) == 0.0 && Dot(r, Centred(xs, mx)) == 0.0
    ensures Dot(r, xs) == 0.0
  {
    DotSymmetric(r, Centred(xs, mx));
    DotSymmetric(r, Ones(|xs|));
    CombineOrthogonal(1.0, Centred(xs, mx), mx, Ones(|xs|), r);
    Recentred(xs, mx);
    DotSymmetric(r, xs);
  }

  /** A line through the centre whose slope explains the covariance satisfies the normal equations. */
  lemma CentralLineIsBalanced(xs: Vector, ys: Vector, m: real, c: real, mx: real, my: real)
    requires |xs| == |ys| && IsMean(xs, mx) && IsMean(ys, my) && c == my - m * mx
    requires m * Dot(Centred(xs, mx), Centred(xs, mx)) == Dot(Centred(ys, my), Centred(xs, mx))
    ensures IsBalanced(xs, ys, m, c)
  {
    CentredSumsToZero(xs, mx);
    CentredSumsToZero(ys, my);
    CentredResiduals(xs, ys, m, c, mx, my);
    ExplainedAway(Centred(ys, my), m, Centred(xs, mx), Residuals(xs, ys, m, c));
    OrthogonalToCentred(Residuals(xs, ys, m, c), xs, mx);
  }

  /** Subtracting the explained part leaves nothing in the direction of `dx`. */
  lemma ExplainedAway(dy: Vector, m: real, dx: Vector, r: Vector)
    requires |dx| == |dy| && r == Combine(1.0, dy, -m, dx)
    requires Dot(dx, Ones(|dx|)) == 0.0 && Dot(dy, Ones(|dx|)) == 0.0 && m * Dot(dx, dx) == Dot(dy, dx)
    ensures Dot(r, Ones(|dx|)) == 0.0 && Dot(r, dx) == 0.0
  {
    CombineOrthogonal(1.0, dy, -m, dx, Ones(|dx|));
    CombineCancels(dy, m, dx, dx);
  }

  lemma Recentred(xs: Vector, mx: real)
    ensures Combine(1.0, Centred(xs, mx), mx, Ones(|xs|)) == xs
  {
    var again := Combine(1.0, Centred(xs, mx), mx, Ones(|xs|));
    forall i | 0 <= i < |xs| ensures again[i] == xs[i] {
      assert Centred(xs, mx)[i] == xs[i] - mx;
    }
  }

  /** What the forecast relies on: a least-squares slope together with that line's residuals. */
  ghost predicate IsTrend(xs: Vector, ys: Vector, slope: real, residuals: Vector)
    requires |xs| == |ys|
  {
    exists intercept ::
      && residuals == Residuals(xs, ys, slope, intercept)
      && IsBalanced(xs, ys, slope, intercept)
      && IsLeastSquares(xs, ys, slope, intercept)
  }

  // ----- the code -----

  datatype Sample = Sample(timestamp: real, value: real)

  const SECONDS_PER_HOUR := 3600.0

  /** The x-coordinates: hours since the first sample. */
  function Hours(samples: seq<Sample>): Vector {
    seq(|samples|, i requires 0 <= i < |samples| => (samples[i].timestamp - samples[0].timestamp) / SECONDS_PER_HOUR)
  }

  function Values(samples: seq<Sample>): Vector {
    seq(|samples|, i requires 0 <= i < |samples| => samples[i].value)
  }

  lemma TotalPrefix(v: Vector, i: nat)
    requires i < |v|
    ensures Total(v[..i + 1]) == Total(v[..i]) + v[i]
  {
    assert v[..i + 1][..i] == v[..i];
  }

  method Means(samples: seq<Sample>) returns (meanX: real, meanY: real)
    requires samples != []
    ensures IsMean(Hours(samples), meanX) && IsMean(Values(samples), meanY)
  {
    var base := samples[0].timestamp;
    ghost var xs, ys := Hours(samples), Values(samples);
    var sumX, sumY := 0.0, 0.0;
    for i := 0 to |samples|
      invariant sumX == Total(xs[..i]) && sumY == Total(ys[..i])
    {
      TotalPrefix(xs, i);
      TotalPrefix(ys, i);
      sumX := sumX + (samples[i].timestamp - base) / SECONDS_PER_HOUR;
      sumY := sumY + samples[i].value;
    }
    assert xs[..|xs|] == xs && ys[..|ys|] == ys;
    var n := |samples| as real;
    meanX, meanY := sumX / n, sumY / n;
    DivideAndMultiply(sumX, n);
    DivideAndMultiply(sumY, n);
    DotOnes(|samples|);
    TimesOnes(xs);
    TimesOnes(ys);
  }

  lemma TotalAppend(v: Vector, last: real)
    ensures Total(v + [last]) == Total(v) + last
  {
    assert (v + [last])[..|v|] == v;
  }

  lemma ProductAt(a: Vector, meanA: real, b: Vector, meanB: real, i: nat, x: real, y: real)
    requires i < |a| == |b| && x == a[i] - meanA && y == b[i] - meanB
    ensures Times(Centred(a, meanA), Centred(b, meanB))[i] == y * x
  {
    assert Centred(a, meanA)[i] == x && Centred(b, meanB)[i] == y;
  }

  method Moments(samples: seq<Sample>, meanX: real, meanY: real) returns (numerator: real, denominator: real)
    requires samples != []
    ensures numerator == Dot(Centred(Values(samples), meanY), Centred(Hours(samples), meanX))
    ensures denominator == Dot(Centred(Hours(samples), meanX), Centred(Hours(samples), meanX))
  {
    var base := samples[0].timestamp;
    ghost var dx, dy := Centred(Hours(samples), meanX), Centred(Values(samples), meanY);
    ghost var xy, xx: Vector := [], [];
    numerator, denominator := 0.0, 0.0;
    for i := 0 to |samples|
      invariant |xy| == |xx| == i && numerator == Total(xy) && denominator == Total(xx)
      invariant forall k :: 0 <= k < i ==> xy[k] == Times(dy, dx)[k] && xx[k] == Times(dx, dx)[k]
    {
      var x, y := (samples[i].timestamp - base) / SECONDS_PER_HOUR - meanX, samples[i].value - meanY;
      var product, square := x * y, x * x;
      ProductAt(Values(samples), meanY, Hours(samples), meanX, i, y, x);
      ProductAt(Hours(samples), meanX, Hours(samples), meanX, i, x, x);
      TotalAppend(xy, product);
      TotalAppend(xx, square);
      xy, xx := xy + [product], xx + [square];
      numerator, denominator := numerator + product, denominator + square;
    }
    assert xy == Times(dy, dx) && xx == Times(dx, dx);
  }

  lemma ResidualAt(xs: Vector, ys: Vector, slope: real, intercept: real, i: nat)
    requires i < |xs| == |ys|
    ensures Residuals(xs, ys, slope, intercept)[i] == ys[i] - (intercept + slope * xs[i])
  {
    assert Line(xs, slope, intercept)[i] == intercept + slope * xs[i];
  }

  method ResidualsOf(samples: seq<Sample>, slope: real, intercept: real) returns (residuals: seq<real>)
    ensures residuals == Residuals(Hours(samples), Values(samples), slope, intercept)
  {
    residuals := [];
    for i := 0 to |samples|
      invariant |residuals| == i
      invariant forall k :: 0 <= k < i ==>
        residuals[k] == Residuals(Hours(samples), Values(samples), slope, intercept)[k]
    {
      var x := (samples[i].timestamp - samples[0].timestamp) / SECONDS_PER_HOUR;
      var predicted := intercept + slope * x;
      ResidualAt(Hours(samples), Values(samples), slope, intercept, i);
      residuals := residuals + [samples[i].value - predicted];
    }
  }

  method FitLine(samples: seq<Sample>) returns (slope: real, residuals: seq<real>)
    ensures |samples| < 2 ==> slope == 0.0 && residuals == []
    ensures |samples| >= 2 ==> IsTrend(Hours(samples), Values(samples), slope, residuals)
    ensures |samples| >= 2 && (forall i :: 0 <= i < |samples| ==> samples[i].timestamp == samples[0].timestamp) ==>
              slope == 0.0
  {
    if |samples| < 2 {
      return 0.0, [];
    }
    var meanX, meanY := Means(samples);
    var numerator, denominator := Moments(samples, meanX, meanY);
    ghost var xs, ys := Hours(samples), Values(samples);
    slope := 0.0;
    if denominator > 0.0 {
      slope := numerator / denominator;
      DivideAndMultiply(numerator, denominator);
    } else {
      OnlyZeroHasNoLength(Centred(xs, meanX));
      DotZero(Centred(xs, meanX), Centred(ys, meanY));
      DotSymmetric(Centred(xs, meanX), Centred(ys, meanY));
      DotSelfIsNonNegative(Centred(xs, meanX));
    }
    var intercept := meanY - slope * meanX;
    residuals := ResidualsOf(samples, slope, intercept);
    CentralLineIsBalanced(xs, ys, slope, intercept, meanX, meanY);
    BalancedIsLeastSquares(xs, ys, slope, intercept);
    if forall i :: 0 <= i < |samples| ==> samples[i].timestamp == samples[0].timestamp {
      SamePointsHaveNoSpread(xs, meanX);
    }
  }

  lemma SamePointsHaveNoSpread(xs: Vector, meanX: real)
    requires xs != [] && (forall i :: 0 <= i < |xs| ==> xs[i] == 0.0)
    requires IsMean(xs, meanX)
    ensures Dot(Centred(xs, meanX), Centred(xs, meanX)) == 0.0
  {
    DotZero(xs, Ones(|xs|));
    DotOnes(|xs|);
    NoMean(meanX, Dot(Ones(|xs|), Ones(|xs|)));
    DotZero(Centred(xs, meanX), Centred(xs, meanX));
  }

  lemma NoMean(mean: real, n: real)
    requires mean * n == 0.0 && n > 0.0
    ensures mean == 0.0
  {
  }
}
