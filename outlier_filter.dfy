/** The outlier filter of pixltsnorm/outlier_filter.py: a vectorised threshold mask over two
    aligned arrays, then boolean indexing of both arrays with that one mask. */
module OutlierFilter {
  import opened Common

  /** The default threshold of `filter_outliers` and `harmonize_series`. */
  const DefaultThreshold: real := 0.2

  /** `abs(a - b) <= threshold` for one pair. NaN makes the difference NaN and every
      comparison with NaN false, so a pair holding NaN is never kept. */
  predicate Kept(x: Val, y: Val, threshold: real) {
    match (x, y)
    case (Num(p), Num(q)) => Abs(p - q) <= threshold
    case _ => false
  }

  /** `mask = np.abs(a - b) <= threshold`. */
  function Mask(a: seq<Val>, b: seq<Val>, threshold: real): seq<bool>
    requires |a| == |b|
  {
    seq(|a|, i requires 0 <= i < |a| => Kept(a[i], b[i], threshold))
  }

  /** The positions the filter keeps, ascending. */
  function KeptIndices(a: seq<Val>, b: seq<Val>, threshold: real): (idx: seq<nat>)
    requires |a| == |b|
    ensures StrictlyIncreasing(idx)
    ensures forall i :: i in idx <==> 0 <= i < |a| && Kept(a[i], b[i], threshold)
  {
    TrueIndices(Mask(a, b, threshold))
  }

  /** `filter_outliers(a, b, threshold)`: both arrays restricted to the positions the mask
      keeps. The two outputs have one length, no longer than the inputs, and hold no NaN
      (FilterSelectsKeptPairs says which pairs they hold). */
  function FilterOutliers(a: seq<Val>, b: seq<Val>, threshold: real): (r: (seq<Val>, seq<Val>))
    requires |a| == |b|
    ensures |r.0| == |r.1| <= |a|
    ensures AllNum(r.0) && AllNum(r.1)
  {
    var mask := Mask(a, b, threshold);
    BoolIndexSelects(a, mask);
    BoolIndexSelects(b, mask);
    (BoolIndex(a, mask), BoolIndex(b, mask))
  }

  /** The outputs of the filter have one length, no longer than the input; every kept pair
      is within the (inclusive) threshold and holds no NaN; entry j of each output is entry
      `KeptIndices(...)[j]` of the matching input, so order is preserved and both outputs use
      the same index set. */
  lemma FilterSelectsKeptPairs(a: seq<Val>, b: seq<Val>, threshold: real)
    requires |a| == |b|
    ensures var r := FilterOutliers(a, b, threshold);
      |r.0| == |r.1| == |KeptIndices(a, b, threshold)| <= |a| &&
      (forall j :: 0 <= j < |r.0| ==> Kept(r.0[j], r.1[j], threshold)) &&
      AllNum(r.0) && AllNum(r.1) &&
      (forall j :: 0 <= j < |r.0| ==>
        r.0[j] == a[KeptIndices(a, b, threshold)[j]] && r.1[j] == b[KeptIndices(a, b, threshold)[j]])
  {
    var mask := Mask(a, b, threshold);
    BoolIndexSelects(a, mask);
    BoolIndexSelects(b, mask);
  }

  /** Nothing in threshold is dropped and nothing outside it is kept: an index is kept iff
      both values are numbers at most `threshold` apart. */
  lemma FilterKeepsExactly(a: seq<Val>, b: seq<Val>, threshold: real, i: int)
    requires |a| == |b| && 0 <= i < |a|
    ensures i in KeptIndices(a, b, threshold) <==> a[i].Num? && b[i].Num? && Abs(a[i].v - b[i].v) <= threshold
    ensures a[i].NaN? || b[i].NaN? ==> i !in KeptIndices(a, b, threshold)
  {
  }

  /** When every pair is in threshold the filter returns its inputs unchanged. */
  lemma FilterKeepsAll(a: seq<Val>, b: seq<Val>, threshold: real)
    requires |a| == |b|
    requires forall i :: 0 <= i < |a| ==> Kept(a[i], b[i], threshold)
    ensures FilterOutliers(a, b, threshold) == (a, b)
  {
    var mask := Mask(a, b, threshold);
    BoolIndexAllTrue(a, mask);
    BoolIndexAllTrue(b, mask);
  }

  /** Filtering the output again with the same threshold changes nothing. */
  lemma FilterIdempotent(a: seq<Val>, b: seq<Val>, threshold: real)
    requires |a| == |b|
    ensures var r := FilterOutliers(a, b, threshold);
      |r.0| == |r.1| && FilterOutliers(r.0, r.1, threshold) == r
  {
    var r := FilterOutliers(a, b, threshold);
    FilterSelectsKeptPairs(a, b, threshold);
    FilterKeepsAll(r.0, r.1, threshold);
  }

  /** A larger threshold keeps a superset of the positions. */
  lemma FilterMonotone(a: seq<Val>, b: seq<Val>, small: real, large: real)
    requires |a| == |b| && small <= large
    ensures forall i :: i in KeptIndices(a, b, small) ==> i in KeptIndices(a, b, large)
    ensures |FilterOutliers(a, b, small).0| <= |FilterOutliers(a, b, large).0|
  {
    var s := KeptIndices(a, b, small);
    var l := KeptIndices(a, b, large);
    FilterSelectsKeptPairs(a, b, small);
    FilterSelectsKeptPairs(a, b, large);
    StrictlyIncreasingCard(s);
    StrictlyIncreasingCard(l);
    assert Elements(s) <= Elements(l);
    SubsetCard(Elements(s), Elements(l));
  }

  lemma SubsetCard(s: set<nat>, t: set<nat>)
    requires s <= t
    ensures |s| <= |t|
  {
    assert t == s + (t - s);
  }

  /** The first entry of a non-empty index list is one of its members (stated as a lemma so
      that the impossible branch below can close on `assert false` alone). */
  lemma HeadIsMember(idx: seq<nat>)
    requires |idx| > 0
    ensures idx[0] in idx
  {
  }

  /** A negative threshold keeps nothing. */
  lemma FilterNegativeThreshold(a: seq<Val>, b: seq<Val>, threshold: real)
    requires |a| == |b| && threshold < 0.0
    ensures FilterOutliers(a, b, threshold) == ([], [])
  {
    var idx := KeptIndices(a, b, threshold);
    if |idx| > 0 {
      HeadIsMember(idx);
      assert false;
    }
    var r := FilterOutliers(a, b, threshold);
    FilterSelectsKeptPairs(a, b, threshold);
    assert |r.0| == 0;
  }
}
