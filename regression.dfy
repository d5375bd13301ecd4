/** pixltsnorm/regression.py: `fit_regression`, a one-feature least-squares fit
    (`y = coef*x + intercept`), and `apply_regression`, the affine map it defines.

    The fit delegates to scikit-learn's LinearRegression; it is modelled as exact ordinary
    least squares over the reals with the same outcome on the edge cases sklearn handles:
    zero samples and NaN input are refused, and when x has no spread the minimum-norm
    solution of the centred problem gives `coef = 0`. */
module Regression {
  import opened Common

  /** The `coef` / `intercept` pair of the dict that `fit_regression` returns. */
  datatype LinearModel = LinearModel(coef: real, intercept: real)

  const Identity: LinearModel := LinearModel(1.0, 0.0)

  /** `slope * x + intercept` on one float; NaN stays NaN. */
  function Predict(m: LinearModel, x: Val): Val {
    match x
    case Num(v) => Num(m.coef * v + m.intercept)
    case NaN => NaN
  }

  /** `apply_regression(x_values, model)`: the affine map applied elementwise. */
  function ApplyRegression(x: seq<Val>, m: LinearModel): (y: seq<Val>)
    ensures |y| == |x|
    ensures forall i :: 0 <= i < |x| ==> y[i] == Predict(m, x[i])
  {
    seq(|x|, i requires 0 <= i < |x| => Predict(m, x[i]))
  }

  /** The model that first applies `first`, then `second`:
      `(first.coef * second.coef, second.coef * first.intercept + second.intercept)`. */
  function Then(first: LinearModel, second: LinearModel): LinearModel {
    LinearModel(first.coef * second.coef, second.coef * first.intercept + second.intercept)
  }

  /** With coef 1 and intercept 0 the map is the identity. */
  lemma ApplyIdentity(x: seq<Val>)
    ensures ApplyRegression(x, Identity) == x
  {
  }

  /** Composed models apply in sequence. */
  lemma ThenApplies(first: LinearModel, second: LinearModel, x: Val)
    ensures Predict(Then(first, second), x) == Predict(second, Predict(first, x))
  {
    if x.Num? {
      calc {
        first.coef * second.coef * x.v + (second.coef * first.intercept + second.intercept);
        second.coef * (first.coef * x.v + first.intercept) + second.intercept;
      }
    }
  }

  lemma ApplyThen(x: seq<Val>, first: LinearModel, second: LinearModel)
    ensures ApplyRegression(x, Then(first, second)) == ApplyRegression(ApplyRegression(x, first), second)
  {
    forall i | 0 <= i < |x| {
      ThenApplies(first, second, x[i]);
    }
  }

  // ---------------------------------------------------------------------------
  // Sums and means

  function Sum(s: seq<real>): real {
    if |s| == 0 then 0.0 else s[0] + Sum(s[1..])
  }

  function Mean(s: seq<real>): real
    requires |s| > 0
  {
    Sum(s) / |s| as real
  }

  /** `x - c`, elementwise: the deviations of a sample about a centre. */
  function Dev(x: seq<real>, c: real): (d: seq<real>)
    ensures |d| == |x|
    ensures forall i {:trigger d[i]} :: 0 <= i < |x| ==> d[i] == x[i] - c
  {
    seq(|x|, i requires 0 <= i < |x| => x[i] - c)
  }

  /** `sum(u[i] * v[i])`. */
  function Dot(u: seq<real>, v: seq<real>): real
    requires |u| == |v|
  {
    if |u| == 0 then 0.0 else u[0] * v[0] + Dot(u[1..], v[1..])
  }

  /** `y - (coef*x + intercept)`, elementwise: the residuals of a line. */
  function Residuals(x: seq<real>, y: seq<real>, m: LinearModel): (r: seq<real>)
    requires |x| == |y|
    ensures |r| == |x|
    ensures forall i :: 0 <= i < |x| ==> r[i] == y[i] - (m.coef * x[i] + m.intercept)
  {
    seq(|x|, i requires 0 <= i < |x| => y[i] - (m.coef * x[i] + m.intercept))
  }

  // ---------------------------------------------------------------------------
  // The fit

  /** Ordinary least squares on a non-empty sample: slope `Sxy / Sxx` (0 when every x is
      the same), intercept `mean(y) - slope * mean(x)`. */
  function Ols(x: seq<real>, y: seq<real>): LinearModel
    requires |x| == |y| > 0
  {
    var mx := Mean(x);
    var my := Mean(y);
    var dx := Dev(x, mx);
    var sxx := Dot(dx, dx);
    var coef := if sxx == 0.0 then 0.0 else Dot(dx, Dev(y, my)) / sxx;
    LinearModel(coef, my - coef * mx)
  }

  /** `fit_regression(x, y)`: refused on an empty sample or NaN input, otherwise the
      least-squares line. */
  function FitRegression(x: seq<Val>, y: seq<Val>): (r: Result<LinearModel>)
    requires |x| == |y|
    ensures r.Ok? <==> |x| > 0 && AllNum(x) && AllNum(y)
    ensures r.Err? ==> r.error == (if |x| == 0 then EmptyFit else NaNInFit)
  {
    if |x| == 0 then Err(EmptyFit)
    else if !AllNum(x) || !AllNum(y) then Err(NaNInFit)
    else Ok(Ols(Reals(x), Reals(y)))
  }

  // ---------------------------------------------------------------------------
  // Properties of the fit

  /** The least-squares line passes through the point of means. */
  lemma OlsThroughMeans(x: seq<real>, y: seq<real>)
    requires |x| == |y| > 0
    ensures Ols(x, y).coef * Mean(x) + Ols(x, y).intercept == Mean(y)
  {
  }

  /** The fit is refused exactly when there are no samples or some value is NaN, and an
      empty sample is refused as such; otherwise the line passes through the means. */
  lemma FitRegressionOutcome(x: seq<Val>, y: seq<Val>)
    requires |x| == |y|
    ensures var r := FitRegression(x, y);
      (r.Err? <==> |x| == 0 || !AllNum(x) || !AllNum(y)) &&
      (|x| == 0 ==> r == Err(EmptyFit)) &&
      (AllNum(x) && AllNum(y) ==> r.Err? ==> r == Err(EmptyFit)) &&
      (r.Ok? ==> r.value.coef * Mean(Reals(x)) + r.value.intercept == Mean(Reals(y)))
  {
    if |x| > 0 && AllNum(x) && AllNum(y) {
      OlsThroughMeans(Reals(x), Reals(y));
    }
  }

  lemma {:induction false} SumOfLine(x: seq<real>, y: seq<real>, s: real, b: real)
    requires |x| == |y|
    requires forall i :: 0 <= i < |x| ==> y[i] == s * x[i] + b
    ensures Sum(y) == s * Sum(x) + b * |x| as real
  {
    if |x| > 0 {
      SumOfLine(x[1..], y[1..], s, b);
    }
  }

  lemma MeanOfLine(x: seq<real>, y: seq<real>, s: real, b: real)
    requires |x| == |y| > 0
    requires forall i :: 0 <= i < |x| ==> y[i] == s * x[i] + b
    ensures Mean(y) == s * Mean(x) + b
  {
    SumOfLine(x, y, s, b);
    var n := |x| as real;
    calc {
      Mean(y);
      (s * Sum(x) + b * n) / n;
      s * (Sum(x) / n) + b;
    }
  }

  lemma ScaleStep(u0: real, v0: real, s: real, rest: real)
    ensures u0 * (s * v0) + s * rest == s * (u0 * v0 + rest)
  {
  }

  /** Scaling one factor of a dot product scales the product. */
  lemma {:induction false} DotScale(u: seq<real>, v: seq<real>, w: seq<real>, s: real)
    requires |u| == |v| == |w|
    requires forall i :: 0 <= i < |v| ==> w[i] == s * v[i]
    ensures Dot(u, w) == s * Dot(u, v)
  {
    if |u| > 0 {
      DotScale(u[1..], v[1..], w[1..], s);
      ScaleStep(u[0], v[0], s, Dot(u[1..], v[1..]));
    }
  }

  lemma SubStep(u0: real, v0: real, z0: real, c: real, restV: real, restZ: real)
    ensures u0 * (v0 - c * z0) + (restV - c * restZ) == (u0 * v0 + restV) - c * (u0 * z0 + restZ)
  {
  }

  /** `u . (v - c*z) == u . v - c * (u . z)`. */
  lemma {:induction false} DotSub(u: seq<real>, v: seq<real>, z: seq<real>, w: seq<real>, c: real)
    requires |u| == |v| == |z| == |w|
    requires forall i :: 0 <= i < |w| ==> w[i] == v[i] - c * z[i]
    ensures Dot(u, w) == Dot(u, v) - c * Dot(u, z)
  {
    if |u| > 0 {
      DotSub(u[1..], v[1..], z[1..], w[1..], c);
      SubStep(u[0], v[0], z[0], c, Dot(u[1..], v[1..]), Dot(u[1..], z[1..]));
    }
  }

  /** `sum(v - c*z) == sum(v) - c * sum(z)`. */
  lemma {:induction false} SumSub(v: seq<real>, z: seq<real>, w: seq<real>, c: real)
    requires |v| == |z| == |w|
    requires forall i :: 0 <= i < |w| ==> w[i] == v[i] - c * z[i]
    ensures Sum(w) == Sum(v) - c * Sum(z)
  {
    if |w| > 0 {
      SumSub(v[1..], z[1..], w[1..], c);
      assert c * (z[0] + Sum(z[1..])) == c * z[0] + c * Sum(z[1..]);
    }
  }

  /** Deviations about a centre sum to `sum(x) - n*c`. */
  lemma {:induction false} SumDev(x: seq<real>, c: real)
    ensures Sum(Dev(x, c)) == Sum(x) - |x| as real * c
  {
    if |x| > 0 {
      SumDev(x[1..], c);
      assert Dev(x, c)[1..] == Dev(x[1..], c);
    }
  }

  /** Deviations about the mean sum to zero. */
  lemma SumDevMean(x: seq<real>)
    requires |x| > 0
    ensures Sum(Dev(x, Mean(x))) == 0.0
  {
    SumDev(x, Mean(x));
    var n := |x| as real;
    assert Sum(x) == n * Mean(x);
  }

  lemma MulPositive(a: real, b: real) returns (p: real)
    requires a > 0.0 && b > 0.0
    ensures p == a * b && p > 0.0
  {
    p := a * b;
  }

  /** The square of a non-zero real, returned so that callers can use its sign. */
  lemma SquarePositive(d: real) returns (sq: real)
    requires d != 0.0
    ensures sq == d * d && sq > 0.0
  {
    if d > 0.0 {
      sq := MulPositive(d, d);
    } else {
      sq := MulPositive(-d, -d);
    }
  }

  lemma SquareNonNegative(d: real)
    ensures d * d >= 0.0
  {
    if d != 0.0 {
      var _ := SquarePositive(d);
    }
  }

  lemma {:induction false} DotSelfNonNegative(u: seq<real>)
    ensures Dot(u, u) >= 0.0
  {
    if |u| > 0 {
      DotSelfNonNegative(u[1..]);
      SquareNonNegative(u[0]);
    }
  }

  /** A sum of squares is at least each of its terms. */
  lemma {:induction false} DotSelfAtLeast(u: seq<real>, i: int)
    requires 0 <= i < |u|
    ensures Dot(u, u) >= u[i] * u[i]
  {
    if i == 0 {
      DotSelfNonNegative(u[1..]);
    } else {
      SquareNonNegative(u[0]);
      DotSelfAtLeast(u[1..], i - 1);
    }
  }

  /** A sum of squares with one non-zero term is positive. */
  lemma DotSelfPositive(u: seq<real>, i: int)
    requires 0 <= i < |u| && u[i] != 0.0
    ensures Dot(u, u) > 0.0
  {
    DotSelfAtLeast(u, i);
    var _ := SquarePositive(u[i]);
  }

  /** A dot product with an all-zero factor is zero. */
  lemma {:induction false} DotZero(u: seq<real>, v: seq<real>)
    requires |u| == |v|
    requires forall i :: 0 <= i < |u| ==> u[i] == 0.0
    ensures Dot(u, v) == 0.0
  {
    if |u| > 0 {
      DotZero(u[1..], v[1..]);
    }
  }

  /** Two distinct x values give the fit a positive spread. */
  lemma DistinctGivesSpread(x: seq<real>, i: int, j: int)
    requires 0 <= i < |x| && 0 <= j < |x| && x[i] != x[j]
    ensures Dot(Dev(x, Mean(x)), Dev(x, Mean(x))) > 0.0
  {
    var mx := Mean(x);
    if x[i] != mx {
      DotSelfPositive(Dev(x, mx), i);
    } else {
      DotSelfPositive(Dev(x, mx), j);
    }
  }

  lemma DivMul(p: real, q: real)
    requires q != 0.0
    ensures (p / q) * q == p
  {
  }

  /** On exact line data the deviations of y are `s` times those of x. */
  lemma DevOfLine(x: seq<real>, y: seq<real>, s: real, b: real)
    requires |x| == |y| > 0
    requires forall k :: 0 <= k < |x| ==> y[k] == s * x[k] + b
    ensures Mean(y) == s * Mean(x) + b
    ensures forall k :: 0 <= k < |x| ==> Dev(y, Mean(y))[k] == s * Dev(x, Mean(x))[k]
  {
    MeanOfLine(x, y, s, b);
    var mx := Mean(x);
    forall k | 0 <= k < |x|
      ensures Dev(y, Mean(y))[k] == s * Dev(x, mx)[k]
    {
      LineDeviation(x[k], mx, s, b);
    }
  }

  lemma LineDeviation(xk: real, mx: real, s: real, b: real)
    ensures (s * xk + b) - (s * mx + b) == s * (xk - mx)
  {
  }

  /** If every point lies on `y = s*x + b` and at least two x values differ, the fit
      recovers exactly `coef = s`, `intercept = b`. */
  lemma OlsRecoversLine(x: seq<real>, y: seq<real>, s: real, b: real, i: int, j: int)
    requires |x| == |y|
    requires 0 <= i < |x| && 0 <= j < |x| && x[i] != x[j]
    requires forall k :: 0 <= k < |x| ==> y[k] == s * x[k] + b
    ensures Ols(x, y) == LinearModel(s, b)
  {
    LineMoments(x, y, s, b);
    DistinctGivesSpread(x, i, j);
    OlsFromMoments(x, y, s, b);
  }

  /** On exact line data the means and the sums of products are tied by the slope. */
  lemma LineMoments(x: seq<real>, y: seq<real>, s: real, b: real)
    requires |x| == |y| > 0
    requires forall k :: 0 <= k < |x| ==> y[k] == s * x[k] + b
    ensures Mean(y) == s * Mean(x) + b
    ensures Dot(Dev(x, Mean(x)), Dev(y, Mean(y))) == s * Dot(Dev(x, Mean(x)), Dev(x, Mean(x)))
  {
    DevOfLine(x, y, s, b);
    DotScale(Dev(x, Mean(x)), Dev(x, Mean(x)), Dev(y, Mean(y)), s);
  }

  /** The fit is determined by the means and the two sums of products. */
  lemma OlsFromMoments(x: seq<real>, y: seq<real>, s: real, b: real)
    requires |x| == |y| > 0
    requires Dot(Dev(x, Mean(x)), Dev(x, Mean(x))) != 0.0
    requires Dot(Dev(x, Mean(x)), Dev(y, Mean(y))) == s * Dot(Dev(x, Mean(x)), Dev(x, Mean(x)))
    requires Mean(y) == s * Mean(x) + b
    ensures Ols(x, y) == LinearModel(s, b)
  {
    OlsSlope(x, y);
    var dx, dy := Dev(x, Mean(x)), Dev(y, Mean(y));
    QuotientOfMultiple(Dot(dx, dy), Dot(dx, dx), s);
    var m := Ols(x, y);
    InterceptFromMeans(m.coef, m.intercept, s, b, Mean(x), Mean(y));
  }

  lemma InterceptFromMeans(c: real, d: real, s: real, b: real, mx: real, my: real)
    requires c == s && c * mx + d == my && my == s * mx + b
    ensures d == b
  {
  }

  /** With a positive spread of x the slope is `(dx . dy) / (dx . dx)`. */
  lemma OlsSlope(x: seq<real>, y: seq<real>)
    requires |x| == |y| > 0
    requires Dot(Dev(x, Mean(x)), Dev(x, Mean(x))) != 0.0
    ensures Ols(x, y).coef == Dot(Dev(x, Mean(x)), Dev(y, Mean(y))) / Dot(Dev(x, Mean(x)), Dev(x, Mean(x)))
  {
  }

  lemma QuotientOfMultiple(p: real, q: real, s: real)
    requires q != 0.0 && p == s * q
    ensures p / q == s
  {
  }

  lemma FitRecoversLine(x: seq<Val>, y: seq<Val>, s: real, b: real, i: int, j: int)
    requires |x| == |y|
    requires 0 <= i < |x| && 0 <= j < |x|
    requires x[i].Num? && x[j].Num? && x[i] != x[j]
    requires forall k :: 0 <= k < |x| ==> x[k].Num? && y[k] == Predict(LinearModel(s, b), x[k])
    ensures FitRegression(x, y) == Ok(LinearModel(s, b))
  {
    var rx, ry := Reals(x), Reals(y);
    OlsRecoversLine(rx, ry, s, b, i, j);
  }

  /** The normal equations of least squares: the residuals of the fitted line sum to zero
      and are uncorrelated with x, which characterises the least-squares line. */
  lemma OlsNormalEquations(x: seq<real>, y: seq<real>)
    requires |x| == |y| > 0
    ensures Sum(Residuals(x, y, Ols(x, y))) == 0.0
    ensures Dot(Dev(x, Mean(x)), Residuals(x, y, Ols(x, y))) == 0.0
  {
    var m := Ols(x, y);
    OlsThroughMeans(x, y);
    ResidualsSumToZero(x, y, m);
    OlsResidualsUncorrelated(x, y, m);
  }

  lemma OlsResidualsUncorrelated(x: seq<real>, y: seq<real>, m: LinearModel)
    requires |x| == |y| > 0 && m == Ols(x, y)
    ensures Dot(Dev(x, Mean(x)), Residuals(x, y, m)) == 0.0
  {
    OlsThroughMeans(x, y);
    OlsSlopeBalances(x, y);
    ResidualsAgainstDeviations(x, y, m);
  }

  /** The fitted slope solves `dx . dy == coef * (dx . dx)`. */
  lemma OlsSlopeBalances(x: seq<real>, y: seq<real>)
    requires |x| == |y| > 0
    ensures var dx := Dev(x, Mean(x));
      Dot(dx, Dev(y, Mean(y))) - Ols(x, y).coef * Dot(dx, dx) == 0.0
  {
    var dx, dy := Dev(x, Mean(x)), Dev(y, Mean(y));
    var sxx := Dot(dx, dx);
    if sxx == 0.0 {
      SpreadZeroMeansConstant(dx);
      DotZero(dx, dy);
    } else {
      DivMul(Dot(dx, dy), sxx);
    }
  }

  /** The residuals of any line through the point of means sum to zero. */
  lemma ResidualsSumToZero(x: seq<real>, y: seq<real>, m: LinearModel)
    requires |x| == |y| > 0
    requires m.coef * Mean(x) + m.intercept == Mean(y)
    ensures Sum(Residuals(x, y, m)) == 0.0
  {
    var dx, dy := Dev(x, Mean(x)), Dev(y, Mean(y));
    ResidualsAsDeviations(x, y, m);
    SumSub(dy, dx, Residuals(x, y, m), m.coef);
    SumDevMean(x);
    SumDevMean(y);
  }

  /** For a line through the means, `dx . r == dx . dy - coef * (dx . dx)`. */
  lemma ResidualsAgainstDeviations(x: seq<real>, y: seq<real>, m: LinearModel)
    requires |x| == |y| > 0
    requires m.coef * Mean(x) + m.intercept == Mean(y)
    ensures var dx := Dev(x, Mean(x));
      Dot(dx, Residuals(x, y, m)) == Dot(dx, Dev(y, Mean(y))) - m.coef * Dot(dx, dx)
  {
    var dx, dy := Dev(x, Mean(x)), Dev(y, Mean(y));
    ResidualsAsDeviations(x, y, m);
    DotSub(dx, dy, dx, Residuals(x, y, m), m.coef);
  }

  /** A zero sum of squares means every term is zero. */
  lemma SpreadZeroMeansConstant(u: seq<real>)
    requires Dot(u, u) == 0.0
    ensures forall k :: 0 <= k < |u| ==> u[k] == 0.0
  {
    forall k | 0 <= k < |u|
      ensures u[k] == 0.0
    {
      if u[k] != 0.0 {
        DotSelfPositive(u, k);
      }
    }
  }

  /** The residuals of a line through the means are `dy - coef*dx`. */
  lemma ResidualsAsDeviations(x: seq<real>, y: seq<real>, m: LinearModel)
    requires |x| == |y| > 0
    requires m.coef * Mean(x) + m.intercept == Mean(y)
    ensures forall k :: 0 <= k < |x| ==>
      Residuals(x, y, m)[k] == Dev(y, Mean(y))[k] - m.coef * Dev(x, Mean(x))[k]
  {
    var mx, my := Mean(x), Mean(y);
    forall k | 0 <= k < |x|
      ensures Residuals(x, y, m)[k] == Dev(y, my)[k] - m.coef * Dev(x, mx)[k]
    {
      ResidualStep(x[k], y[k], m.coef, m.intercept, mx, my);
    }
  }

  lemma ResidualStep(xk: real, yk: real, c: real, d: real, mx: real, my: real)
    requires c * mx + d == my
    ensures yk - (c * xk + d) == (yk - my) - c * (xk - mx)
  {
  }
}
