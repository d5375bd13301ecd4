/** pixltsnorm/global_harmonize.py: scene-wide bridging of one sensor onto another from every
    pixel and date the two tables share, and the Landsat 5 -> 7 -> 8 chain built from two such
    bridges. */
module GlobalHarmonize {
  import opened Common
  import opened Frames
  import opened OutlierFilter
  import opened Regression
  import opened Harmonize

  /** The labels that hold coordinates rather than dates. */
  const Coordinates: seq<string> := ["lon", "lat"]

  /** The labels of `a` that `b` also has, other than the coordinates, in the order of `a`. */
  function SharedCols(a: seq<string>, b: seq<string>): seq<string> {
    if |a| == 0 then []
    else
      var n := |a| - 1;
      SharedCols(a[..n], b) + (if a[n] !in Coordinates && a[n] in b then [a[n]] else [])
  }

  lemma {:induction false} SharedColsMembers(a: seq<string>, b: seq<string>)
    ensures forall c :: c in SharedCols(a, b) <==> c in a && c in b && c !in Coordinates
  {
    if |a| > 0 {
      var n := |a| - 1;
      SharedColsMembers(a[..n], b);
      assert a == a[..n] + [a[n]];
    }
  }

  /** `sorted((set(dfA.columns) - {"lon", "lat"}).intersection(set(dfB.columns) - {"lon", "lat"}))`. */
  function OverlapCols(dfA: Frame, dfB: Frame): seq<string> {
    SortUnique(SharedCols(dfA.columns, dfB.columns))
  }

  /** The overlap columns are strictly ascending and are exactly the labels both frames have,
      other than `lon` and `lat`. */
  lemma OverlapColsMeaning(dfA: Frame, dfB: Frame)
    ensures StrictlySorted(OverlapCols(dfA, dfB)) && Distinct(OverlapCols(dfA, dfB))
    ensures forall c :: c in OverlapCols(dfA, dfB) <==>
      c in dfA.columns && c in dfB.columns && c != "lon" && c != "lat"
  {
    SharedColsMembers(dfA.columns, dfB.columns);
    SortedDistinct(OverlapCols(dfA, dfB));
  }

  /** `(~np.isnan(arrA)) & (~np.isnan(arrB))`. */
  function BothNumbers(a: seq<Val>, b: seq<Val>): seq<bool>
    requires |a| == |b|
  {
    seq(|a|, i requires 0 <= i < |a| => a[i].Num? && b[i].Num?)
  }

  /** Two frames the bridging can pair cell for cell: pandas-shaped, with the same number of
      rows (numpy does not broadcast two flattened arrays of different lengths). */
  predicate Aligned(dfA: Frame, dfB: Frame) {
    WellFormed(dfA) && WellFormed(dfB) && |dfA.rows| == |dfB.rows|
  }

  /** `arrA` and `arrB` after the flatten: the overlap cells of each frame, row-major. */
  function FlatPairs(dfA: Frame, dfB: Frame): (r: (seq<Val>, seq<Val>))
    requires Aligned(dfA, dfB)
    ensures |r.0| == |r.1|
  {
    var overlap := OverlapCols(dfA, dfB);
    FlattenLength(dfA.rows, overlap);
    FlattenLength(dfB.rows, overlap);
    (Flatten(dfA.rows, overlap), Flatten(dfB.rows, overlap))
  }

  /** `arrA` and `arrB` after `arrA = arrA[mask]; arrB = arrB[mask]`: the flattened pairs in
      which both cells are numbers. */
  function NumberPairs(dfA: Frame, dfB: Frame): (r: (seq<Val>, seq<Val>))
    requires Aligned(dfA, dfB)
    ensures |r.0| == |r.1|
  {
    var (arrA, arrB) := FlatPairs(dfA, dfB);
    var mask := BothNumbers(arrA, arrB);
    BoolIndexSelects(arrA, mask);
    BoolIndexSelects(arrB, mask);
    (BoolIndex(arrA, mask), BoolIndex(arrB, mask))
  }

  /** The dict `global_bridging` returns. */
  datatype Bridge = Bridge(coef: real, intercept: real, filteredA: seq<Val>, filteredB: seq<Val>,
                           nInitial: nat, nUsed: nat)

  /** `global_bridging(dfA, dfB, outlier_threshold)`: refuse two tables with no shared date
      column, otherwise harmonise the NaN-free flattened pairs and report how many pairs there
      were before and after the outlier filter. It fails only for want of a shared column or of
      a kept pair, and a bridge counts no more used pairs than initial ones. */
  function GlobalBridging(dfA: Frame, dfB: Frame, threshold: real): (r: Result<Bridge>)
    requires Aligned(dfA, dfB)
    ensures r.Err? ==> r.error == NoOverlap || r.error == EmptyFit
    ensures r.Ok? ==> r.value.nUsed == |r.value.filteredA| == |r.value.filteredB| <= r.value.nInitial
  {
    if |OverlapCols(dfA, dfB)| == 0 then Err(NoOverlap)
    else
      var (arrA, arrB) := NumberPairs(dfA, dfB);
      var nInitial := |arrA|;
      match HarmonizeSeries(arrA, arrB, threshold)
      case Err(e) => Err(e)
      case Ok(p) => Ok(Bridge(p.model.coef, p.model.intercept, p.filteredA, p.filteredB, nInitial, |p.filteredA|))
  }

  /** The `coef` / `intercept` pair of a bridge. */
  function ModelOf(b: Bridge): LinearModel {
    LinearModel(b.coef, b.intercept)
  }

  // ---------------------------------------------------------------------------
  // Properties of one bridge

  /** Without a shared date column the bridging fails with NoOverlap, before any fitting; a
      bridging that fails otherwise fails because the outlier filter kept no pair. */
  lemma GlobalBridgingErrors(dfA: Frame, dfB: Frame, threshold: real)
    requires Aligned(dfA, dfB)
    ensures GlobalBridging(dfA, dfB, threshold) == Err(NoOverlap) <==> |OverlapCols(dfA, dfB)| == 0
    ensures GlobalBridging(dfA, dfB, threshold).Err? && |OverlapCols(dfA, dfB)| > 0 ==>
      GlobalBridging(dfA, dfB, threshold) == Err(EmptyFit) &&
      |KeptIndices(NumberPairs(dfA, dfB).0, NumberPairs(dfA, dfB).1, threshold)| == 0
  {
    if |OverlapCols(dfA, dfB)| > 0 {
      var (arrA, arrB) := NumberPairs(dfA, dfB);
      HarmonizeFailsOnlyWhenNothingKept(arrA, arrB, threshold);
    }
  }

  /** The flattened arrays pair the two frames cell for cell, row-major over (row, overlap
      column): entry `r * m + j` of each is that frame's cell at row `r` under overlap column
      `j`, where `m` is the number of overlap columns. */
  lemma FlatPairsRowMajor(dfA: Frame, dfB: Frame, r: nat, j: nat)
    requires Aligned(dfA, dfB)
    requires r < |dfA.rows| && j < |OverlapCols(dfA, dfB)|
    ensures var overlap := OverlapCols(dfA, dfB);
      var k := r * |overlap| + j;
      |FlatPairs(dfA, dfB).0| == |dfA.rows| * |overlap| &&
      k < |FlatPairs(dfA, dfB).0| &&
      overlap[j] in dfA.rows[r] && FlatPairs(dfA, dfB).0[k] == dfA.rows[r][overlap[j]] &&
      overlap[j] in dfB.rows[r] && FlatPairs(dfA, dfB).1[k] == dfB.rows[r][overlap[j]]
  {
    var overlap := OverlapCols(dfA, dfB);
    OverlapColsMeaning(dfA, dfB);
    FlattenAt(dfA.rows, overlap, r, j);
    FlattenAt(dfB.rows, overlap, r, j);
    assert overlap[j] in overlap;
  }

  /** After the NaN mask no pair holds NaN, the pairs keep their flattened order, and there
      are as many as flattened positions where both cells are numbers. */
  lemma NumberPairsMeaning(dfA: Frame, dfB: Frame)
    requires Aligned(dfA, dfB)
    ensures var (arrA, arrB) := FlatPairs(dfA, dfB);
      var (numA, numB) := NumberPairs(dfA, dfB);
      var idx := TrueIndices(BothNumbers(arrA, arrB));
      AllNum(numA) && AllNum(numB) && |numA| == |idx| &&
      (forall j :: 0 <= j < |numA| ==> numA[j] == arrA[idx[j]] && numB[j] == arrB[idx[j]]) &&
      |numA| == |set i | 0 <= i < |arrA| && arrA[i].Num? && arrB[i].Num?|
  {
    var (arrA, arrB) := FlatPairs(dfA, dfB);
    var mask := BothNumbers(arrA, arrB);
    BoolIndexSelects(arrA, mask);
    BoolIndexSelects(arrB, mask);
    TrueIndicesCount(mask);
    assert (set i | 0 <= i < |mask| && mask[i]) == (set i | 0 <= i < |arrA| && arrA[i].Num? && arrB[i].Num?);
  }

  /** A successful bridge is `harmonize_series` on the NaN-free pairs: its slope, intercept
      and filtered arrays are that call's, `n_initial` counts the NaN-free pairs, and
      `n_used = len(filtered_a)` is at most `n_initial`. */
  lemma GlobalBridgingMeaning(dfA: Frame, dfB: Frame, threshold: real)
    requires Aligned(dfA, dfB)
    ensures var r := GlobalBridging(dfA, dfB, threshold);
      var (numA, numB) := NumberPairs(dfA, dfB);
      r.Ok? ==>
        |OverlapCols(dfA, dfB)| > 0 &&
        HarmonizeSeries(numA, numB, threshold).Ok? &&
        ModelOf(r.value) == HarmonizeSeries(numA, numB, threshold).value.model &&
        r.value.filteredA == HarmonizeSeries(numA, numB, threshold).value.filteredA &&
        r.value.filteredB == HarmonizeSeries(numA, numB, threshold).value.filteredB &&
        r.value.nInitial == |numA| &&
        r.value.nUsed == |r.value.filteredA| == |r.value.filteredB| <= r.value.nInitial &&
        AllNum(r.value.filteredA) && AllNum(r.value.filteredB)
  {
    var r := GlobalBridging(dfA, dfB, threshold);
    var (numA, numB) := NumberPairs(dfA, dfB);
    if r.Ok? {
      FilterSelectsKeptPairs(numA, numB, threshold);
      HarmonizeFiltersThenFits(numA, numB, threshold);
    }
  }

  // ---------------------------------------------------------------------------
  // The Landsat chain

  /** The dict `chain_global_bridging` returns: the two bridges and their composition. */
  datatype GlobalChain = GlobalChain(l5ToL7: Bridge, l7ToL8: Bridge, l5ToL8: LinearModel)

  /** `chain_global_bridging(df_l5, df_l7, df_l8, outlier_thresholds)`: bridge L5 onto L7 with
      the first threshold, then L7 onto L8 with the second, and compose `x = a*c`,
      `y = a*d + b`. Each threshold is read just before its bridge, so a short tuple fails
      only when its entry is reached. A chain with L5 -> L7 = `(c, d)` and L7 -> L8 = `(a, b)`
      has L5 -> L8 = `Then((c, d), (a, b))`, whose slope is `a*c` and intercept `a*d + b`. */
  function ChainGlobalBridging(l5: Frame, l7: Frame, l8: Frame, thresholds: seq<real>): (r: Result<GlobalChain>)
    requires Aligned(l5, l7) && Aligned(l7, l8)
    ensures |thresholds| < 1 ==> r == Err(ThresholdIndexOutOfRange)
    ensures r.Ok? ==> |thresholds| >= 2 && r.value.l5ToL8 == Then(ModelOf(r.value.l5ToL7), ModelOf(r.value.l7ToL8))
  {
    if |thresholds| < 1 then Err(ThresholdIndexOutOfRange)
    else match GlobalBridging(l5, l7, thresholds[0])
      case Err(e) => Err(e)
      case Ok(res57) =>
        var (c, d) := (res57.coef, res57.intercept);
        if |thresholds| < 2 then Err(ThresholdIndexOutOfRange)
        else match GlobalBridging(l7, l8, thresholds[1])
          case Err(e) => Err(e)
          case Ok(res78) =>
            var (a, b) := (res78.coef, res78.intercept);
            // x = a*c, y = a*d + b: the L7 -> L8 map applied after the L5 -> L7 map.
            Ok(GlobalChain(res57, res78, Then(LinearModel(c, d), LinearModel(a, b))))
  }

  /** A successful chain holds the L5 -> L7 bridge fitted with `thresholds[0]` and the
      L7 -> L8 bridge fitted with `thresholds[1]`; its L5 -> L8 model is their composition
      (whose slope and intercept ChainGlobalBridging states), and applying it is applying
      L5 -> L7 and then L7 -> L8. */
  lemma ChainGlobalComposes(l5: Frame, l7: Frame, l8: Frame, thresholds: seq<real>, v: Val)
    requires Aligned(l5, l7) && Aligned(l7, l8)
    ensures var r := ChainGlobalBridging(l5, l7, l8, thresholds);
      r.Ok? ==>
        |thresholds| >= 2 &&
        GlobalBridging(l5, l7, thresholds[0]) == Ok(r.value.l5ToL7) &&
        GlobalBridging(l7, l8, thresholds[1]) == Ok(r.value.l7ToL8) &&
        r.value.l5ToL8 == Then(ModelOf(r.value.l5ToL7), ModelOf(r.value.l7ToL8)) &&
        Predict(r.value.l5ToL8, v) == Predict(ModelOf(r.value.l7ToL8), Predict(ModelOf(r.value.l5ToL7), v))
  {
    var r := ChainGlobalBridging(l5, l7, l8, thresholds);
    if r.Ok? {
      ChainGlobalErrors(l5, l7, l8, thresholds);
      var b57, b78 := GlobalBridging(l5, l7, thresholds[0]).value, GlobalBridging(l7, l8, thresholds[1]).value;
      ChainGlobalSucceeds(l5, l7, l8, thresholds, b57, b78);
      ThenApplies(ModelOf(b57), ModelOf(b78), v);
    }
  }

  /** Two successful bridges give the chain of those bridges and the composition of their
      models. */
  lemma ChainGlobalSucceeds(l5: Frame, l7: Frame, l8: Frame, thresholds: seq<real>, b57: Bridge, b78: Bridge)
    requires Aligned(l5, l7) && Aligned(l7, l8) && |thresholds| >= 2
    requires GlobalBridging(l5, l7, thresholds[0]) == Ok(b57)
    requires GlobalBridging(l7, l8, thresholds[1]) == Ok(b78)
    ensures ChainGlobalBridging(l5, l7, l8, thresholds) == Ok(GlobalChain(b57, b78, Then(ModelOf(b57), ModelOf(b78))))
  {
  }

  /** The chain fails exactly when a threshold it reads is missing or one of its bridges
      fails, in the order the calls are made. */
  lemma ChainGlobalErrors(l5: Frame, l7: Frame, l8: Frame, thresholds: seq<real>)
    requires Aligned(l5, l7) && Aligned(l7, l8)
    ensures |thresholds| == 0 ==> ChainGlobalBridging(l5, l7, l8, thresholds) == Err(ThresholdIndexOutOfRange)
    ensures |thresholds| >= 1 && GlobalBridging(l5, l7, thresholds[0]).Err? ==>
      ChainGlobalBridging(l5, l7, l8, thresholds) == Err(GlobalBridging(l5, l7, thresholds[0]).error)
    ensures |thresholds| == 1 && GlobalBridging(l5, l7, thresholds[0]).Ok? ==>
      ChainGlobalBridging(l5, l7, l8, thresholds) == Err(ThresholdIndexOutOfRange)
    ensures |thresholds| >= 2 && GlobalBridging(l5, l7, thresholds[0]).Ok? && GlobalBridging(l7, l8, thresholds[1]).Err? ==>
      ChainGlobalBridging(l5, l7, l8, thresholds) == Err(GlobalBridging(l7, l8, thresholds[1]).error)
    ensures |thresholds| >= 2 && GlobalBridging(l5, l7, thresholds[0]).Ok? && GlobalBridging(l7, l8, thresholds[1]).Ok? ==>
      ChainGlobalBridging(l5, l7, l8, thresholds).Ok?
  {
  }
}
