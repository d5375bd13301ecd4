/** Values, errors and the numpy boolean-indexing primitive shared by every module.

    A numpy float cell is either a number or NaN. IEEE-754 rounding is not modelled:
    numbers are exact reals, and NaN is a constructor of its own so that the
    "comparison with NaN is false" rule of the source can be written out. */
module Common {

  /** One cell of a float array or DataFrame. */
  datatype Val = Num(v: real) | NaN

  /** The exceptions the core raises (or lets sklearn / pandas / Python raise). */
  datatype Error =
    | TooFewSensors            // chain_harmonization: fewer than two sensors
    | ThresholdCountMismatch   // chain_harmonization: len(outlier_thresholds) != n - 1
    | NoOverlap                // global_bridging: no shared date column
    | EmptyFit                 // LinearRegression.fit on zero samples
    | NaNInFit                 // LinearRegression.fit on an input holding NaN
    | RowOutOfRange            // DataFrame.iloc with a row position outside the frame
    | ThresholdIndexOutOfRange // outlier_thresholds[k] past the end of the tuple
    | DuplicateLabels          // DataFrame.reindex on a frame whose column labels repeat

  datatype Result<T> = Ok(value: T) | Err(error: Error)

  datatype Option<T> = None | Some(value: T)

  function Abs(x: real): (r: real)
    ensures r >= 0.0 && (r == x || r == -x)
  {
    if x < 0.0 then -x else x
  }

  predicate AllNum(s: seq<Val>) {
    forall i :: 0 <= i < |s| ==> s[i].Num?
  }

  /** The numbers held by a NaN-free array. */
  function Reals(s: seq<Val>): (r: seq<real>)
    requires AllNum(s)
    ensures |r| == |s|
    ensures forall i {:trigger r[i]} :: 0 <= i < |s| ==> s[i] == Num(r[i])
  {
    seq(|s|, i requires 0 <= i < |s| => s[i].v)
  }

  predicate StrictlyIncreasing(idx: seq<nat>) {
    forall i, j :: 0 <= i < j < |idx| ==> idx[i] < idx[j]
  }

  /** The positions where a boolean mask is true, in ascending order: the index set that
      numpy's `s[mask]` keeps. */
  function TrueIndices(m: seq<bool>): (idx: seq<nat>)
    ensures StrictlyIncreasing(idx)
    ensures |idx| <= |m|
    ensures forall j :: 0 <= j < |idx| ==> idx[j] < |m| && m[idx[j]]
    ensures forall i :: 0 <= i < |m| && m[i] ==> i in idx
  {
    if |m| == 0 then []
    else
      var n := |m| - 1;
      var p := TrueIndices(m[..n]);
      if m[n] then p + [n] else p
  }

  /** numpy boolean indexing `s[mask]`: the elements at the true positions, order preserved. */
  function BoolIndex<T>(s: seq<T>, m: seq<bool>): seq<T>
    requires |s| == |m|
  {
    if |s| == 0 then []
    else
      var n := |s| - 1;
      BoolIndex(s[..n], m[..n]) + (if m[n] then [s[n]] else [])
  }

  /** Entry `j` of `s[mask]` is the element at the `j`-th true position of the mask. */
  lemma {:induction false} BoolIndexSelects<T>(s: seq<T>, m: seq<bool>)
    requires |s| == |m|
    ensures |BoolIndex(s, m)| == |TrueIndices(m)|
    ensures forall j :: 0 <= j < |BoolIndex(s, m)| ==> BoolIndex(s, m)[j] == s[TrueIndices(m)[j]]
  {
    if |s| > 0 {
      var n := |s| - 1;
      BoolIndexSelects(s[..n], m[..n]);
      assert TrueIndices(m) == TrueIndices(m[..n]) + (if m[n] then [n] else []);
    }
  }

  function Elements(idx: seq<nat>): set<nat> {
    set x | x in idx
  }

  /** A strictly increasing index sequence has as many distinct elements as entries. */
  lemma {:induction false} StrictlyIncreasingCard(idx: seq<nat>)
    requires StrictlyIncreasing(idx)
    ensures |Elements(idx)| == |idx|
  {
    if |idx| > 0 {
      var n := |idx| - 1;
      var p := idx[..n];
      StrictlyIncreasingCard(p);
      assert Elements(idx) == Elements(p) + {idx[n]};
      assert idx[n] !in Elements(p);
    }
  }

  /** The number of kept elements is the number of true positions of the mask. */
  lemma TrueIndicesCount(m: seq<bool>)
    ensures |TrueIndices(m)| == |set i | 0 <= i < |m| && m[i]|
  {
    var idx := TrueIndices(m);
    StrictlyIncreasingCard(idx);
    assert Elements(idx) == (set i | 0 <= i < |m| && m[i]);
  }

  /** A mask that is true everywhere keeps every position. */
  lemma {:induction false} TrueIndicesAllTrue(m: seq<bool>)
    requires forall i :: 0 <= i < |m| ==> m[i]
    ensures |TrueIndices(m)| == |m|
    ensures forall j :: 0 <= j < |m| ==> TrueIndices(m)[j] == j
  {
    if |m| > 0 {
      TrueIndicesAllTrue(m[..|m| - 1]);
    }
  }

  /** Indexing with an everywhere-true mask returns the array unchanged. */
  lemma BoolIndexAllTrue<T>(s: seq<T>, m: seq<bool>)
    requires |s| == |m|
    requires forall i :: 0 <= i < |m| ==> m[i]
    ensures BoolIndex(s, m) == s
  {
    TrueIndicesAllTrue(m);
    BoolIndexSelects(s, m);
  }
}
