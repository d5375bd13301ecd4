/** pixltsnorm/harmonize.py: harmonising one sensor onto another (outlier filter, then a
    linear fit), and chaining several sensors into one overall linear transform. */
module Harmonize {
  import opened Common
  import opened OutlierFilter
  import opened Regression

  /** The dict `harmonize_series` returns. Its `transform` closure is `ApplyRegression`
      with `model`, see `Transform`. */
  datatype PairResult = PairResult(model: LinearModel, filteredA: seq<Val>, filteredB: seq<Val>)

  /** `harmonize_series(a, b, threshold)`: filter the pairs, then fit `b = coef*a + intercept`
      on what survives. The only error is the fit's refusal of an empty sample. */
  function HarmonizeSeries(a: seq<Val>, b: seq<Val>, threshold: real): (r: Result<PairResult>)
    requires |a| == |b|
    ensures r.Err? ==> r.error == EmptyFit
    ensures r.Ok? ==> |r.value.filteredA| == |r.value.filteredB| <= |a|
  {
    FilterSelectsKeptPairs(a, b, threshold);
    var (fa, fb) := FilterOutliers(a, b, threshold);
    FitRegressionOutcome(fa, fb);
    match FitRegression(fa, fb)
    case Ok(m) => Ok(PairResult(m, fa, fb))
    case Err(e) => Err(e)
  }

  /** The harmonisation fails exactly when the filter keeps no pair: what it keeps holds no
      NaN, so the fit refuses it only when it is empty. */
  lemma HarmonizeFailsOnlyWhenNothingKept(a: seq<Val>, b: seq<Val>, threshold: real)
    requires |a| == |b|
    ensures HarmonizeSeries(a, b, threshold).Err? <==> |KeptIndices(a, b, threshold)| == 0
  {
    var filtered := FilterOutliers(a, b, threshold);
    FilterSelectsKeptPairs(a, b, threshold);
    FitRegressionOutcome(filtered.0, filtered.1);
  }

  /** The filtered arrays of `harmonize_series` are exactly the filter's output, and the model
      is the fit on them: a line through their means. */
  lemma HarmonizeFiltersThenFits(a: seq<Val>, b: seq<Val>, threshold: real)
    requires |a| == |b|
    ensures var r := HarmonizeSeries(a, b, threshold);
      r.Ok? ==>
        (r.value.filteredA, r.value.filteredB) == FilterOutliers(a, b, threshold) &&
        FitRegression(r.value.filteredA, r.value.filteredB) == Ok(r.value.model) &&
        r.value.model.coef * Mean(Reals(r.value.filteredA)) + r.value.model.intercept
          == Mean(Reals(r.value.filteredB))
  {
    var r := HarmonizeSeries(a, b, threshold);
    var filtered := FilterOutliers(a, b, threshold);
    FilterSelectsKeptPairs(a, b, threshold);
    FitRegressionOutcome(filtered.0, filtered.1);
    if r.Ok? {
      var fit := FitRegression(filtered.0, filtered.1);
      assert fit == Ok(r.value.model);
      assert r.value.filteredA == filtered.0 && r.value.filteredB == filtered.1;
      var c, d := r.value.model.coef, r.value.model.intercept;
      assert c == fit.value.coef && d == fit.value.intercept;
    }
  }

  /** The `transform` closure of a pair result: its model applied elementwise. */
  function Transform(p: PairResult, x: seq<Val>): (y: seq<Val>)
    ensures |y| == |x|
    ensures forall i :: 0 <= i < |x| ==> y[i] == Predict(p.model, x[i])
  {
    ApplyRegression(x, p.model)
  }

  /** When every pair is within the threshold and b lies exactly on `s*a + t` with two
      distinct a values, the harmonisation recovers `(s, t)` and keeps every pair. */
  lemma HarmonizeRecoversLine(a: seq<Val>, b: seq<Val>, threshold: real, s: real, t: real, i: int, j: int)
    requires |a| == |b|
    requires forall k :: 0 <= k < |a| ==> Kept(a[k], b[k], threshold)
    requires forall k :: 0 <= k < |a| ==> b[k] == Predict(LinearModel(s, t), a[k])
    requires 0 <= i < |a| && 0 <= j < |a| && a[i] != a[j]
    ensures HarmonizeSeries(a, b, threshold) == Ok(PairResult(LinearModel(s, t), a, b))
  {
    FilterKeepsAll(a, b, threshold);
    FitRecoversLine(a, b, s, t, i, j);
  }

  // ---------------------------------------------------------------------------
  // Chaining

  /** The pairwise models of a list of pair results. */
  function Models(ps: seq<PairResult>): (ms: seq<LinearModel>)
    ensures |ms| == |ps|
    ensures forall i :: 0 <= i < |ps| ==> ms[i] == ps[i].model
  {
    seq(|ps|, i requires 0 <= i < |ps| => ps[i].model)
  }

  /** The cumulative `(slope, intercept)` after folding the models in order, from `(1, 0)`,
      with the update `(cs, ci) := (cs * a, a * ci + b)`. */
  function Compose(ms: seq<LinearModel>): LinearModel {
    if |ms| == 0 then Identity
    else Then(Compose(ms[..|ms| - 1]), ms[|ms| - 1])
  }

  function Product(ms: seq<LinearModel>): real {
    if |ms| == 0 then 1.0
    else Product(ms[..|ms| - 1]) * ms[|ms| - 1].coef
  }

  /** Applying each model in turn, first to last. */
  function ApplyInOrder(ms: seq<LinearModel>, x: Val): Val {
    if |ms| == 0 then x
    else Predict(ms[|ms| - 1], ApplyInOrder(ms[..|ms| - 1], x))
  }

  /** The final slope is the product of the pairwise slopes. */
  lemma {:induction false} ComposeSlopeIsProduct(ms: seq<LinearModel>)
    ensures Compose(ms).coef == Product(ms)
  {
    if |ms| > 0 {
      ComposeSlopeIsProduct(ms[..|ms| - 1]);
    }
  }

  /** The final transform is the pairwise transforms applied in order. */
  lemma {:induction false} ComposeAppliesInOrder(ms: seq<LinearModel>, x: Val)
    ensures Predict(Compose(ms), x) == ApplyInOrder(ms, x)
  {
    if |ms| > 0 {
      var n := |ms| - 1;
      ComposeAppliesInOrder(ms[..n], x);
      ThenApplies(Compose(ms[..n]), ms[n], x);
    }
  }

  /** A chain of one pair is that pair's model. */
  lemma ComposeSingle(m: LinearModel)
    ensures Compose([m]) == m
  {
    assert [m][..0] == [];
  }

  lemma ComposeSnoc(ms: seq<LinearModel>, m: LinearModel)
    ensures Compose(ms + [m]) == Then(Compose(ms), m)
  {
    assert (ms + [m])[..|ms|] == ms;
  }

  /** One step of the fold in `chain_harmonization`, as the loop writes it: `a` and `b` are
      the new pair's slope and intercept. */
  lemma FoldStep(pairwise: seq<PairResult>, p: PairResult, slope: real, intercept: real, a: real, b: real)
    requires LinearModel(slope, intercept) == Compose(Models(pairwise))
    requires a == p.model.coef && b == p.model.intercept
    ensures LinearModel(slope * a, a * intercept + b) == Compose(Models(pairwise + [p]))
  {
    assert Models(pairwise + [p]) == Models(pairwise) + [p.model];
    ComposeSnoc(Models(pairwise), p.model);
  }

  /** The thresholds the chain uses: the caller's list, or 0.2 for each of the `n - 1` pairs. */
  function ChainThresholds(outlierThresholds: Option<seq<real>>, n: nat): (ts: seq<real>)
    requires n >= 1
    ensures outlierThresholds.None? ==> |ts| == n - 1 && forall i :: 0 <= i < n - 1 ==> ts[i] == DefaultThreshold
    ensures outlierThresholds.Some? ==> ts == outlierThresholds.value
  {
    match outlierThresholds
    case None => Repeat(DefaultThreshold, n - 1)
    case Some(ts) => ts
  }

  /** Python's `[x] * n`. */
  function Repeat(x: real, n: nat): (r: seq<real>)
    ensures |r| == n
    ensures forall i :: 0 <= i < n ==> r[i] == x
  {
    if n == 0 then [] else [x] + Repeat(x, n - 1)
  }

  /** `chain_harmonization`'s output: the pairwise results and the overall transform. */
  datatype ChainResult = ChainResult(pairwise: seq<PairResult>, finalSlope: real, finalIntercept: real)

  /** The sensor that pair `j` harmonises onto `sensors[j + 1]`: always sensor 0 in the chain
      as written, sensor `j` in the adjacent chain. */
  function Reference(sensors: seq<seq<Val>>, j: nat, adjacent: bool): (s: seq<Val>)
    requires j < |sensors|
    ensures s == sensors[0] || s == sensors[j]
  {
    if adjacent then sensors[j] else sensors[0]
  }

  /** All sensors have one length, as the elementwise filter needs. */
  predicate SameLength(sensors: seq<seq<Val>>) {
    forall i :: 0 <= i < |sensors| ==> |sensors[i]| == |sensors[0]|
  }

  /** The first `k` pair results of a chain, or the error of the first pair that fails. */
  function ChainPairs(sensors: seq<seq<Val>>, ts: seq<real>, k: nat, adjacent: bool): Result<seq<PairResult>>
    requires SameLength(sensors)
    requires k <= |ts| && k < |sensors|
  {
    if k == 0 then Ok([])
    else match ChainPairs(sensors, ts, k - 1, adjacent)
      case Err(e) => Err(e)
      case Ok(ps) =>
        match HarmonizeSeries(Reference(sensors, k - 1, adjacent), sensors[k], ts[k - 1])
        case Err(e) => Err(e)
        case Ok(p) => Ok(ps + [p])
  }

  /** The pairs of a chain are exactly the pairwise harmonisations, one per step, in order. */
  lemma {:induction false} ChainPairsAreHarmonizations(sensors: seq<seq<Val>>, ts: seq<real>, k: nat, adjacent: bool)
    requires SameLength(sensors)
    requires k <= |ts| && k < |sensors|
    ensures var c := ChainPairs(sensors, ts, k, adjacent);
      c.Ok? ==> (|c.value| == k &&
        forall j :: 0 <= j < k ==>
          HarmonizeSeries(Reference(sensors, j, adjacent), sensors[j + 1], ts[j]) == Ok(c.value[j]))
  {
    if k > 0 {
      ChainPairsAreHarmonizations(sensors, ts, k - 1, adjacent);
      var c := ChainPairs(sensors, ts, k, adjacent);
      if c.Ok? {
        ChainStepSplits(sensors, ts, adjacent, k, c.value);
        var ps := ChainPairs(sensors, ts, k - 1, adjacent).value;
        forall j | 0 <= j < k
          ensures HarmonizeSeries(Reference(sensors, j, adjacent), sensors[j + 1], ts[j]) == Ok(c.value[j])
        {
          if j < k - 1 {
            assert c.value[j] == ps[j];
          }
        }
      }
    }
  }

  /** A chain fails exactly when one of its pairwise harmonisations fails. */
  lemma {:induction false} ChainPairsFailWhenAPairFails(sensors: seq<seq<Val>>, ts: seq<real>, k: nat, adjacent: bool)
    requires SameLength(sensors)
    requires k <= |ts| && k < |sensors|
    ensures ChainPairs(sensors, ts, k, adjacent).Err? <==>
      exists j :: 0 <= j < k && HarmonizeSeries(Reference(sensors, j, adjacent), sensors[j + 1], ts[j]).Err?
    ensures ChainPairs(sensors, ts, k, adjacent).Err? ==> ChainPairs(sensors, ts, k, adjacent).error == EmptyFit
  {
    if k > 0 {
      ChainPairsFailWhenAPairFails(sensors, ts, k - 1, adjacent);
      if ChainPairs(sensors, ts, k, adjacent).Ok? {
        ChainPairsAreHarmonizations(sensors, ts, k, adjacent);
      }
    }
  }

  /** After a failure the chain stops: later steps report the same error. */
  lemma {:induction false} ChainPairsStopAtFailure(sensors: seq<seq<Val>>, ts: seq<real>, k: nat, m: nat, adjacent: bool)
    requires SameLength(sensors)
    requires k <= m <= |ts| && m < |sensors|
    requires ChainPairs(sensors, ts, k, adjacent).Err?
    ensures ChainPairs(sensors, ts, m, adjacent) == ChainPairs(sensors, ts, k, adjacent)
  {
    if k < m {
      ChainPairsStopAtFailure(sensors, ts, k, m - 1, adjacent);
    }
  }

  /** The result a chain returns for its pairs: the pairs and their folded model. */
  function ChainOutcome(pairs: Result<seq<PairResult>>): Result<ChainResult> {
    match pairs
    case Err(e) => Err(e)
    case Ok(ps) => Ok(ChainResult(ps, Compose(Models(ps)).coef, Compose(Models(ps)).intercept))
  }

  /** The thresholds are usable: none given, or one per pair. */
  predicate ThresholdsFit(outlierThresholds: Option<seq<real>>, n: nat) {
    outlierThresholds.None? || |outlierThresholds.value| == n - 1
  }

  /** What a chain returns: the argument checks of `chain_harmonization` in its order, then
      the pairs of the chain and their folded model. */
  function Chained(sensors: seq<seq<Val>>, outlierThresholds: Option<seq<real>>, adjacent: bool): Result<ChainResult>
    requires SameLength(sensors)
  {
    if |sensors| < 2 then Err(TooFewSensors)
    else if !ThresholdsFit(outlierThresholds, |sensors|) then Err(ThresholdCountMismatch)
    else ChainOutcome(ChainPairs(sensors, ChainThresholds(outlierThresholds, |sensors|), |sensors| - 1, adjacent))
  }

  /** A chain refuses fewer than two sensors, then a threshold list of the wrong length. */
  lemma ChainedRefuses(sensors: seq<seq<Val>>, outlierThresholds: Option<seq<real>>, adjacent: bool)
    requires SameLength(sensors)
    ensures |sensors| < 2 ==> Chained(sensors, outlierThresholds, adjacent) == Err(TooFewSensors)
    ensures |sensors| >= 2 && !ThresholdsFit(outlierThresholds, |sensors|) ==>
      Chained(sensors, outlierThresholds, adjacent) == Err(ThresholdCountMismatch)
  {
  }

  /** The arguments pass the checks of `chain_harmonization`. */
  predicate ChainArgsOk(sensors: seq<seq<Val>>, outlierThresholds: Option<seq<real>>) {
    SameLength(sensors) && |sensors| >= 2 && ThresholdsFit(outlierThresholds, |sensors|)
  }

  /** On arguments it accepts, a chain fails, with the fit's error, exactly when one pairwise
      harmonisation fails; when it succeeds it holds one pair result per step, each the
      harmonisation of that step's reference onto the next sensor, and the final model is the
      fold of their models. */
  lemma ChainedMeaning(sensors: seq<seq<Val>>, outlierThresholds: Option<seq<real>>, adjacent: bool)
    requires ChainArgsOk(sensors, outlierThresholds)
    ensures var r := Chained(sensors, outlierThresholds, adjacent);
      var ts := ChainThresholds(outlierThresholds, |sensors|);
      |ts| == |sensors| - 1 &&
      (r.Err? <==> (exists j :: 0 <= j < |sensors| - 1 &&
                     HarmonizeSeries(Reference(sensors, j, adjacent), sensors[j + 1], ts[j]).Err?)) &&
      (r.Err? ==> r.error == EmptyFit) &&
      (r.Ok? ==> (|r.value.pairwise| == |sensors| - 1 &&
                  (forall j :: 0 <= j < |sensors| - 1 ==>
                     HarmonizeSeries(Reference(sensors, j, adjacent), sensors[j + 1], ts[j]) == Ok(r.value.pairwise[j])) &&
                  LinearModel(r.value.finalSlope, r.value.finalIntercept) == Compose(Models(r.value.pairwise))))
  {
    var ts := ChainThresholds(outlierThresholds, |sensors|);
    ChainPairsAreHarmonizations(sensors, ts, |sensors| - 1, adjacent);
    ChainPairsFailWhenAPairFails(sensors, ts, |sensors| - 1, adjacent);
  }

  /** A step whose pair fails ends the whole chain with that pair's error. */
  lemma ChainStepFails(sensors: seq<seq<Val>>, outlierThresholds: Option<seq<real>>, ts: seq<real>,
                       adjacent: bool, i: nat, pairwise: seq<PairResult>, e: Error)
    requires ChainArgsOk(sensors, outlierThresholds) && ts == ChainThresholds(outlierThresholds, |sensors|)
    requires i < |sensors| - 1
    requires ChainPairs(sensors, ts, i, adjacent) == Ok(pairwise)
    requires HarmonizeSeries(Reference(sensors, i, adjacent), sensors[i + 1], ts[i]) == Err(e)
    ensures Chained(sensors, outlierThresholds, adjacent) == Err(e)
  {
    ChainStepStops(sensors, ts, adjacent, i, pairwise, e);
    ChainPairsStopAtFailure(sensors, ts, i + 1, |sensors| - 1, adjacent);
  }

  /** A step whose pair fails turns the chain's pairs into that pair's error. */
  lemma ChainStepStops(sensors: seq<seq<Val>>, ts: seq<real>, adjacent: bool,
                       i: nat, pairwise: seq<PairResult>, e: Error)
    requires SameLength(sensors) && i < |ts| && i + 1 < |sensors|
    requires ChainPairs(sensors, ts, i, adjacent) == Ok(pairwise)
    requires HarmonizeSeries(Reference(sensors, i, adjacent), sensors[i + 1], ts[i]) == Err(e)
    ensures ChainPairs(sensors, ts, i + 1, adjacent) == Err(e)
  {
  }

  /** A chain whose steps all succeed returns its pairs and their folded model. */
  lemma ChainFinishes(sensors: seq<seq<Val>>, outlierThresholds: Option<seq<real>>, ts: seq<real>,
                      adjacent: bool, pairwise: seq<PairResult>, slope: real, intercept: real)
    requires ChainArgsOk(sensors, outlierThresholds) && ts == ChainThresholds(outlierThresholds, |sensors|)
    requires ChainPairs(sensors, ts, |sensors| - 1, adjacent) == Ok(pairwise)
    requires LinearModel(slope, intercept) == Compose(Models(pairwise))
    ensures Chained(sensors, outlierThresholds, adjacent) == Ok(ChainResult(pairwise, slope, intercept))
  {
  }

  /** A step whose pair succeeds appends that pair to the chain's results. */
  lemma ChainStepExtends(sensors: seq<seq<Val>>, ts: seq<real>, adjacent: bool,
                         i: nat, pairwise: seq<PairResult>, p: PairResult)
    requires SameLength(sensors) && i < |ts| && i + 1 < |sensors|
    requires ChainPairs(sensors, ts, i, adjacent) == Ok(pairwise)
    requires HarmonizeSeries(Reference(sensors, i, adjacent), sensors[i + 1], ts[i]) == Ok(p)
    ensures ChainPairs(sensors, ts, i + 1, adjacent) == Ok(pairwise + [p])
  {
  }

  /** A successful chain of `k > 0` steps is the successful chain of `k - 1` steps followed
      by the successful pair of step `k - 1`. */
  lemma ChainStepSplits(sensors: seq<seq<Val>>, ts: seq<real>, adjacent: bool, k: nat, pairwise: seq<PairResult>)
    requires SameLength(sensors) && 0 < k <= |ts| && k < |sensors|
    requires ChainPairs(sensors, ts, k, adjacent) == Ok(pairwise)
    ensures ChainPairs(sensors, ts, k - 1, adjacent).Ok?
    ensures HarmonizeSeries(Reference(sensors, k - 1, adjacent), sensors[k], ts[k - 1]).Ok?
    ensures pairwise == ChainPairs(sensors, ts, k - 1, adjacent).value
      + [HarmonizeSeries(Reference(sensors, k - 1, adjacent), sensors[k], ts[k - 1]).value]
  {
  }

  /** `chain_harmonization(sensor_list, outlier_thresholds)` as written: the reference sensor
      is never moved on, so pair `i` harmonises sensor 0 onto sensor `i + 1`; the cumulative
      transform then folds these models as if they were adjacent steps. */
  method ChainHarmonization(sensors: seq<seq<Val>>, outlierThresholds: Option<seq<real>>)
    returns (r: Result<ChainResult>)
    requires SameLength(sensors)
    ensures r == Chained(sensors, outlierThresholds, false)
  {
    var n := |sensors|;
    if n < 2 {
      return Err(TooFewSensors);
    }
    if outlierThresholds.Some? && |outlierThresholds.value| != n - 1 {
      return Err(ThresholdCountMismatch);
    }
    var thresholds := ChainThresholds(outlierThresholds, n);
    var pairwise: seq<PairResult> := [];
    var cumulativeSlope := 1.0;
    var cumulativeIntercept := 0.0;
    var currentReference := sensors[0];
    for i: nat := 0 to n - 1
      invariant ChainPairs(sensors, thresholds, i, false) == Ok(pairwise)
      invariant LinearModel(cumulativeSlope, cumulativeIntercept) == Compose(Models(pairwise))
    {
      var sensorA := currentReference;
      var sensorB := sensors[i + 1];
      match HarmonizeSeries(sensorA, sensorB, thresholds[i])
      case Err(e) =>
        ChainStepFails(sensors, outlierThresholds, thresholds, false, i, pairwise, e);
        return Err(e);
      case Ok(pairResult) =>
        ChainStepExtends(sensors, thresholds, false, i, pairwise, pairResult);
        var a, b := pairResult.model.coef, pairResult.model.intercept;
        FoldStep(pairwise, pairResult, cumulativeSlope, cumulativeIntercept, a, b);
        pairwise := pairwise + [pairResult];
        var newSlope := cumulativeSlope * a;
        var newIntercept := a * cumulativeIntercept + b;
        cumulativeSlope := newSlope;
        cumulativeIntercept := newIntercept;
    }
    ChainFinishes(sensors, outlierThresholds, thresholds, false, pairwise, cumulativeSlope, cumulativeIntercept);
    return Ok(ChainResult(pairwise, cumulativeSlope, cumulativeIntercept));
  }

  /** The chain the documentation describes: each step harmonises sensor `i` onto sensor
      `i + 1`, so that the folded transform goes from sensor 0 to the last sensor. */
  method ChainHarmonizationAdjacent(sensors: seq<seq<Val>>, outlierThresholds: Option<seq<real>>)
    returns (r: Result<ChainResult>)
    requires SameLength(sensors)
    ensures r == Chained(sensors, outlierThresholds, true)
  {
    var n := |sensors|;
    if n < 2 {
      return Err(TooFewSensors);
    }
    if outlierThresholds.Some? && |outlierThresholds.value| != n - 1 {
      return Err(ThresholdCountMismatch);
    }
    var thresholds := ChainThresholds(outlierThresholds, n);
    var pairwise: seq<PairResult> := [];
    var cumulativeSlope := 1.0;
    var cumulativeIntercept := 0.0;
    var currentReference := sensors[0];
    for i: nat := 0 to n - 1
      invariant currentReference == sensors[i]
      invariant ChainPairs(sensors, thresholds, i, true) == Ok(pairwise)
      invariant LinearModel(cumulativeSlope, cumulativeIntercept) == Compose(Models(pairwise))
    {
      var sensorA := currentReference;
      var sensorB := sensors[i + 1];
      match HarmonizeSeries(sensorA, sensorB, thresholds[i])
      case Err(e) =>
        ChainStepFails(sensors, outlierThresholds, thresholds, true, i, pairwise, e);
        return Err(e);
      case Ok(pairResult) =>
        ChainStepExtends(sensors, thresholds, true, i, pairwise, pairResult);
        var a, b := pairResult.model.coef, pairResult.model.intercept;
        FoldStep(pairwise, pairResult, cumulativeSlope, cumulativeIntercept, a, b);
        pairwise := pairwise + [pairResult];
        var newSlope := cumulativeSlope * a;
        var newIntercept := a * cumulativeIntercept + b;
        cumulativeSlope := newSlope;
        cumulativeIntercept := newIntercept;
        currentReference := sensorB;
    }
    ChainFinishes(sensors, outlierThresholds, thresholds, true, pairwise, cumulativeSlope, cumulativeIntercept);
    return Ok(ChainResult(pairwise, cumulativeSlope, cumulativeIntercept));
  }

  /** Adjacent steps telescope: if step `i` maps every reading of sensor `i` onto the same
      reading of sensor `i + 1`, the folded transform maps sensor 0 onto the last sensor. */
  lemma {:induction false} AdjacentChainTelescopes(sensors: seq<seq<Val>>, ms: seq<LinearModel>, k: int)
    requires |sensors| == |ms| + 1
    requires 0 <= k && forall i :: 0 <= i < |sensors| ==> k < |sensors[i]|
    requires forall i :: 0 <= i < |ms| ==> Predict(ms[i], sensors[i][k]) == sensors[i + 1][k]
    ensures Predict(Compose(ms), sensors[0][k]) == sensors[|ms|][k]
  {
    ComposeAppliesInOrder(ms, sensors[0][k]);
    ApplyInOrderTelescopes(sensors, ms, k, |ms|);
    assert ms[..|ms|] == ms;
  }

  lemma {:induction false} ApplyInOrderTelescopes(sensors: seq<seq<Val>>, ms: seq<LinearModel>, k: int, n: nat)
    requires |sensors| == |ms| + 1 && n <= |ms|
    requires 0 <= k && forall i :: 0 <= i < |sensors| ==> k < |sensors[i]|
    requires forall i :: 0 <= i < |ms| ==> Predict(ms[i], sensors[i][k]) == sensors[i + 1][k]
    ensures ApplyInOrder(ms[..n], sensors[0][k]) == sensors[n][k]
  {
    if n > 0 {
      ApplyInOrderTelescopes(sensors, ms, k, n - 1);
      assert ms[..n][..n - 1] == ms[..n - 1];
    } else {
      assert ms[..0] == [];
    }
    if n == |ms| {
      assert ms[..n] == ms;
    }
  }

  // ---------------------------------------------------------------------------
  // The chain as written does not go from sensor 0 to the last sensor

  /** Two readings of a sensor: 0 and `reading`. */
  function Sensor(reading: real): seq<Val> {
    [Num(0.0), Num(reading)]
  }

  /** A sensor that reads `scale` times what another reads is harmonised onto it with slope
      `scale` and intercept 0, keeping both pairs, when the threshold admits the gap. */
  lemma HarmonizeScaledSensor(u: real, scale: real, threshold: real)
    requires 0.0 <= threshold && Abs(u - scale * u) <= threshold && u != 0.0
    ensures HarmonizeSeries(Sensor(u), Sensor(scale * u), threshold)
      == Ok(PairResult(LinearModel(scale, 0.0), Sensor(u), Sensor(scale * u)))
  {
    var a, b := Sensor(u), Sensor(scale * u);
    assert Kept(a[0], b[0], threshold) && Kept(a[1], b[1], threshold);
    assert b[0] == Predict(LinearModel(scale, 0.0), a[0]);
    assert b[1] == Predict(LinearModel(scale, 0.0), a[1]);
    HarmonizeRecoversLine(a, b, threshold, scale, 0.0, 0, 1);
  }

  /** Folding two pure scalings multiplies them. */
  lemma ComposeTwoScalings(p: real, q: real)
    ensures Compose([LinearModel(p, 0.0), LinearModel(q, 0.0)]) == LinearModel(p * q, 0.0)
  {
    var m, n := LinearModel(p, 0.0), LinearModel(q, 0.0);
    ComposeSingle(m);
    ComposeSnoc([m], n);
    assert [m] + [n] == [m, n];
  }

  /** Three sensors reading `[0, u]`, `[0, 2u]` and `[0, 4u]`: each reads twice the one
      before, so the right transform from the first to the last has slope 4. */
  function Doubling(u: real): (sensors: seq<seq<Val>>)
    ensures |sensors| == 3 && SameLength(sensors)
  {
    [Sensor(u), Sensor(2.0 * u), Sensor(4.0 * u)]
  }

  /** Sensor 0 of the doubling sensors harmonised onto sensor 1, when the threshold admits
      every gap. */
  lemma DoublingFirstToSecond(u: real, threshold: real)
    requires 0.0 < u && 3.0 * u <= threshold
    ensures HarmonizeSeries(Sensor(u), Sensor(2.0 * u), threshold)
      == Ok(PairResult(LinearModel(2.0, 0.0), Sensor(u), Sensor(2.0 * u)))
  {
    HarmonizeScaledSensor(u, 2.0, threshold);
  }

  /** Sensor 0 of the doubling sensors harmonised onto sensor 2. */
  lemma DoublingFirstToThird(u: real, threshold: real)
    requires 0.0 < u && 3.0 * u <= threshold
    ensures HarmonizeSeries(Sensor(u), Sensor(4.0 * u), threshold)
      == Ok(PairResult(LinearModel(4.0, 0.0), Sensor(u), Sensor(4.0 * u)))
  {
    HarmonizeScaledSensor(u, 4.0, threshold);
  }

  /** Sensor 1 of the doubling sensors harmonised onto sensor 2. */
  lemma DoublingSecondToThird(u: real, threshold: real)
    requires 0.0 < u && 3.0 * u <= threshold
    ensures HarmonizeSeries(Sensor(2.0 * u), Sensor(4.0 * u), threshold)
      == Ok(PairResult(LinearModel(2.0, 0.0), Sensor(2.0 * u), Sensor(4.0 * u)))
  {
    assert 2.0 * (2.0 * u) == 4.0 * u;
    HarmonizeScaledSensor(2.0 * u, 2.0, threshold);
  }

  /** A successful chain over two pairs whose models are the pure scalings `p` and `q` ends
      with slope `p * q` and intercept 0. */
  lemma ChainOfTwoScalings(sensors: seq<seq<Val>>, ts: Option<seq<real>>, adjacent: bool, p: real, q: real)
    requires |sensors| == 3 && SameLength(sensors) && ThresholdsFit(ts, 3)
    requires HarmonizeSeries(Reference(sensors, 0, adjacent), sensors[1], ChainThresholds(ts, 3)[0]).Ok?
    requires HarmonizeSeries(Reference(sensors, 0, adjacent), sensors[1], ChainThresholds(ts, 3)[0]).value.model
      == LinearModel(p, 0.0)
    requires HarmonizeSeries(Reference(sensors, 1, adjacent), sensors[2], ChainThresholds(ts, 3)[1]).Ok?
    requires HarmonizeSeries(Reference(sensors, 1, adjacent), sensors[2], ChainThresholds(ts, 3)[1]).value.model
      == LinearModel(q, 0.0)
    ensures Chained(sensors, ts, adjacent).Ok?
    ensures Chained(sensors, ts, adjacent).value.finalSlope == p * q
    ensures Chained(sensors, ts, adjacent).value.finalIntercept == 0.0
  {
    var th := ChainThresholds(ts, 3);
    var h0 := HarmonizeSeries(Reference(sensors, 0, adjacent), sensors[1], th[0]).value;
    var h1 := HarmonizeSeries(Reference(sensors, 1, adjacent), sensors[2], th[1]).value;
    ChainStepExtends(sensors, th, adjacent, 0, [], h0);
    ChainStepExtends(sensors, th, adjacent, 1, [] + [h0], h1);
    assert [] + [h0] + [h1] == [h0, h1];
    assert Models([h0, h1]) == [LinearModel(p, 0.0), LinearModel(q, 0.0)];
    ComposeTwoScalings(p, q);
    ChainFinishes(sensors, ts, th, adjacent, [h0, h1], p * q, 0.0);
  }

  /** The chain as written, on the doubling sensors: pair 0 fits sensor 0 onto sensor 1
      (slope 2), pair 1 fits sensor 0 onto sensor 2 (slope 4), and the fold multiplies them to
      slope 8, so sensor 0's reading `u` is mapped to `8u`, not to the last sensor's `4u`. */
  lemma ChainAsWrittenOvershoots(u: real, threshold: real)
    requires 0.0 < u && 3.0 * u <= threshold
    ensures var r := Chained(Doubling(u), Some([threshold, threshold]), false);
      r.Ok? && r.value.finalSlope == 8.0 && r.value.finalIntercept == 0.0 &&
      Predict(LinearModel(r.value.finalSlope, r.value.finalIntercept), Doubling(u)[0][1]) != Doubling(u)[2][1]
  {
    var s := Doubling(u);
    assert Reference(s, 0, false) == Reference(s, 1, false) == Sensor(u);
    assert s[1] == Sensor(2.0 * u) && s[2] == Sensor(4.0 * u);
    assert ChainThresholds(Some([threshold, threshold]), 3) == [threshold, threshold];
    DoublingFirstToSecond(u, threshold);
    DoublingFirstToThird(u, threshold);
    ChainOfTwoScalings(s, Some([threshold, threshold]), false, 2.0, 4.0);
  }

  /** The adjacent chain on the same sensors fits slopes 2 and 2, folds them to slope 4, and
      maps sensor 0's reading `u` onto the last sensor's `4u`. */
  lemma ChainAdjacentReachesLast(u: real, threshold: real)
    requires 0.0 < u && 3.0 * u <= threshold
    ensures var r := Chained(Doubling(u), Some([threshold, threshold]), true);
      r.Ok? && r.value.finalSlope == 4.0 && r.value.finalIntercept == 0.0 &&
      Predict(LinearModel(r.value.finalSlope, r.value.finalIntercept), Doubling(u)[0][1]) == Doubling(u)[2][1]
  {
    AdjacentDoublingFolds(u, threshold);
    assert Predict(LinearModel(4.0, 0.0), Num(u)) == Num(4.0 * u);
  }

  /** The adjacent chain on the doubling sensors succeeds with the fold of two slopes 2. */
  lemma AdjacentDoublingFolds(u: real, threshold: real)
    requires 0.0 < u && 3.0 * u <= threshold
    ensures var r := Chained(Doubling(u), Some([threshold, threshold]), true);
      r.Ok? && r.value.finalSlope == 2.0 * 2.0 && r.value.finalIntercept == 0.0
  {
    var s := Doubling(u);
    assert Reference(s, 0, true) == Sensor(u) && Reference(s, 1, true) == Sensor(2.0 * u);
    assert s[1] == Sensor(2.0 * u) && s[2] == Sensor(4.0 * u);
    assert ChainThresholds(Some([threshold, threshold]), 3) == [threshold, threshold];
    DoublingFirstToSecond(u, threshold);
    DoublingSecondToThird(u, threshold);
    ChainOfTwoScalings(s, Some([threshold, threshold]), true, 2.0, 2.0);
  }

}
