/** pixltsnorm/utils.py: putting several sensors' tables on one common set of date columns
    and reading one pixel's time series out of each, plus a second copy of the outlier filter.

    The date parsing of the union columns (`pd.to_datetime`) is not modelled: the dates are
    kept as the column labels they are parsed from. */
module Utils {
  import opened Common
  import opened Frames
  import OutlierFilter

  /** `[c for c in df.columns if c not in skip_cols]`: the labels that are not skipped, in
      their order. */
  function ValidCols(columns: seq<string>, skip: seq<string>): seq<string> {
    if |columns| == 0 then []
    else
      var n := |columns| - 1;
      ValidCols(columns[..n], skip) + (if columns[n] in skip then [] else [columns[n]])
  }

  lemma {:induction false} ValidColsMembers(columns: seq<string>, skip: seq<string>)
    ensures forall c :: c in ValidCols(columns, skip) <==> c in columns && c !in skip
  {
    if |columns| > 0 {
      var n := |columns| - 1;
      ValidColsMembers(columns[..n], skip);
      assert columns == columns[..n] + [columns[n]];
    }
  }

  /** Every label of a list of label lists, in order. */
  function Concat(css: seq<seq<string>>): seq<string> {
    if |css| == 0 then [] else Concat(css[..|css| - 1]) + css[|css| - 1]
  }

  lemma {:induction false} ConcatMembers(css: seq<seq<string>>)
    ensures forall c :: c in Concat(css) <==> exists k :: 0 <= k < |css| && c in css[k]
  {
    if |css| > 0 {
      var n := |css| - 1;
      ConcatMembers(css[..n]);
      assert forall k :: 0 <= k < n ==> css[..n][k] == css[k];
    }
  }

  /** `columns_list`: the unskipped labels of each frame. */
  function ColumnsList(dfs: seq<Frame>, skip: seq<string>): seq<seq<string>> {
    seq(|dfs|, k requires 0 <= k < |dfs| => ValidCols(dfs[k].columns, skip))
  }

  /** `union_cols = sorted(set().union(*columns_list))`. */
  function UnionCols(dfs: seq<Frame>, skip: seq<string>): seq<string> {
    SortUnique(Concat(ColumnsList(dfs, skip)))
  }

  /** The union columns are strictly ascending, so free of duplicates, and hold exactly the
      labels that some frame has and that are not skipped. */
  lemma UnionColsMeaning(dfs: seq<Frame>, skip: seq<string>)
    ensures StrictlySorted(UnionCols(dfs, skip)) && Distinct(UnionCols(dfs, skip))
    ensures forall c :: c in UnionCols(dfs, skip) <==>
      c !in skip && exists k :: 0 <= k < |dfs| && c in dfs[k].columns
  {
    var css := ColumnsList(dfs, skip);
    var r := UnionCols(dfs, skip);
    SortedDistinct(r);
    ConcatMembers(css);
    forall c
      ensures c in r <==> c !in skip && exists k :: 0 <= k < |dfs| && c in dfs[k].columns
    {
      if c in r {
        var k :| 0 <= k < |css| && c in css[k];
        ValidColsMembers(dfs[k].columns, skip);
        assert c in dfs[k].columns;
      }
      if c !in skip && exists k :: 0 <= k < |dfs| && c in dfs[k].columns {
        var k :| 0 <= k < |dfs| && c in dfs[k].columns;
        ValidColsMembers(dfs[k].columns, skip);
        assert c in css[k];
      }
    }
  }

  /** `np.arange(n)`. */
  function Arange(n: nat): (r: seq<int>)
    ensures |r| == n
    ensures forall i :: 0 <= i < n ==> r[i] == i
  {
    seq(n, i => i)
  }

  /** `rdf.iloc[row_index, :stop].values`: the row at a Python position, cut at a Python
      slice stop; a position outside the frame raises IndexError. */
  function ILocRow(f: Frame, rowIndex: int, stop: int): Result<seq<Val>> {
    if !RowInRange(rowIndex, |f.rows|) then Err(RowOutOfRange)
    else
      var row := Cells(f.rows[RowPosition(rowIndex, |f.rows|)], f.columns);
      Ok(row[..SliceEnd(|row|, stop)])
  }

  /** What `unify_and_extract_timeseries` returns: one array per frame, the union columns
      (the labels `dates` is parsed from) and the time axis. */
  datatype Unified = Unified(arrays: seq<seq<Val>>, dates: seq<string>, timeAxis: seq<int>)

  /** The array taken from one frame: the frame reindexed to the union columns followed by the
      skipped ones, then its row cut at `-len(skip_cols)`. */
  function Extracted(f: Frame, union: seq<string>, skip: seq<string>, rowIndex: int): Result<seq<Val>> {
    ILocRow(Reindex(f, union + skip), rowIndex, -|skip|)
  }

  predicate SomeDuplicateLabels(dfs: seq<Frame>) {
    exists k :: 0 <= k < |dfs| && !Distinct(dfs[k].columns)
  }

  predicate SomeRowOutOfRange(dfs: seq<Frame>, rowIndex: int) {
    exists k :: 0 <= k < |dfs| && !RowInRange(rowIndex, |dfs[k].rows|)
  }

  /** The outcome of `unify_and_extract_timeseries(dfs, row_index, skip_cols)`: `reindex`
      refuses a frame with repeated labels, `iloc` a row position outside a frame; otherwise
      the arrays, the union columns and `arange` over them. */
  function Unify(dfs: seq<Frame>, rowIndex: int, skip: seq<string>): Result<Unified> {
    var union := UnionCols(dfs, skip);
    if SomeDuplicateLabels(dfs) then Err(DuplicateLabels)
    else if SomeRowOutOfRange(dfs, rowIndex) then Err(RowOutOfRange)
    else
      Ok(Unified(seq(|dfs|, k requires 0 <= k < |dfs| => Extracted(dfs[k], union, skip, rowIndex).value),
                 union, Arange(|union|)))
  }

  /** `unify_and_extract_timeseries(dfs, row_index, skip_cols)`, loop by loop: collect each
      frame's unskipped labels, take their sorted union, reindex every frame to it, then read
      the row out of each reindexed frame. */
  method UnifyAndExtractTimeseries(dfs: seq<Frame>, rowIndex: int, skipCols: seq<string>)
    returns (r: Result<Unified>)
    ensures r == Unify(dfs, rowIndex, skipCols)
  {
    var columnsList: seq<seq<string>> := [];
    for k := 0 to |dfs|
      invariant |columnsList| == k
      invariant forall j :: 0 <= j < k ==> columnsList[j] == ValidCols(dfs[j].columns, skipCols)
    {
      var validCols := ValidCols(dfs[k].columns, skipCols);
      columnsList := columnsList + [validCols];
    }
    assert columnsList == ColumnsList(dfs, skipCols);
    var unionCols := SortUnique(Concat(columnsList));
    assert unionCols == UnionCols(dfs, skipCols);

    var targetCols := unionCols + skipCols;
    var reindexedDfs: seq<Frame> := [];
    for k := 0 to |dfs|
      invariant |reindexedDfs| == k
      invariant forall j :: 0 <= j < k ==> Distinct(dfs[j].columns)
      invariant forall j :: 0 <= j < k ==> reindexedDfs[j] == Reindex(dfs[j], targetCols)
    {
      if !Distinct(dfs[k].columns) {
        UnifyFailsOnLabels(dfs, rowIndex, skipCols, k);
        return Err(DuplicateLabels);
      }
      var reindexedDf := Reindex(dfs[k], targetCols);
      reindexedDfs := reindexedDfs + [reindexedDf];
    }

    var listOfArrays: seq<seq<Val>> := [];
    for k := 0 to |reindexedDfs|
      invariant |listOfArrays| == k
      invariant forall j :: 0 <= j < k ==>
        RowInRange(rowIndex, |dfs[j].rows|) && Extracted(dfs[j], unionCols, skipCols, rowIndex) == Ok(listOfArrays[j])
    {
      var arr := ILocRow(reindexedDfs[k], rowIndex, -|skipCols|);
      if arr.Err? {
        UnifyFailsOnRow(dfs, rowIndex, skipCols, k);
        return Err(arr.error);
      }
      listOfArrays := listOfArrays + [arr.value];
    }

    var dates := unionCols;
    var timeAxis := Arange(|dates|);
    UnifySucceeds(dfs, rowIndex, skipCols, listOfArrays);
    return Ok(Unified(listOfArrays, dates, timeAxis));
  }

  /** A frame with a repeated label makes the call fail with DuplicateLabels. */
  lemma UnifyFailsOnLabels(dfs: seq<Frame>, rowIndex: int, skip: seq<string>, k: nat)
    requires k < |dfs| && !Distinct(dfs[k].columns)
    ensures Unify(dfs, rowIndex, skip) == Err(DuplicateLabels)
  {
  }

  /** With no repeated labels, a frame without the requested row makes the call fail with
      RowOutOfRange. */
  lemma UnifyFailsOnRow(dfs: seq<Frame>, rowIndex: int, skip: seq<string>, k: nat)
    requires forall j :: 0 <= j < |dfs| ==> Distinct(dfs[j].columns)
    requires k < |dfs| && !RowInRange(rowIndex, |dfs[k].rows|)
    ensures Unify(dfs, rowIndex, skip) == Err(RowOutOfRange)
  {
  }

  /** When every frame has distinct labels and every extraction succeeds, the call returns
      the extracted arrays. */
  lemma UnifySucceeds(dfs: seq<Frame>, rowIndex: int, skip: seq<string>, arrays: seq<seq<Val>>)
    requires |arrays| == |dfs|
    requires forall j :: 0 <= j < |dfs| ==> Distinct(dfs[j].columns)
    requires forall j :: 0 <= j < |dfs| ==>
      RowInRange(rowIndex, |dfs[j].rows|) && Extracted(dfs[j], UnionCols(dfs, skip), skip, rowIndex) == Ok(arrays[j])
    ensures Unify(dfs, rowIndex, skip) == Ok(Unified(arrays, UnionCols(dfs, skip), Arange(|UnionCols(dfs, skip)|)))
  {
    var union := UnionCols(dfs, skip);
    assert !SomeDuplicateLabels(dfs);
    assert !SomeRowOutOfRange(dfs, rowIndex);
    var u := Unify(dfs, rowIndex, skip).value;
    assert u.arrays == arrays;
  }

  /** The cell a reindexed row holds at position `j`: the original row's cell under that
      label, or NaN. */
  lemma ReindexedCell(f: Frame, cols: seq<string>, p: nat, j: nat)
    requires p < |f.rows| && j < |cols|
    ensures Cells(Reindex(f, cols).rows[p], cols)[j] == CellOrNaN(f.rows[p], cols[j])
  {
    var row := Reindex(f, cols).rows[p];
    assert cols[j] in row;
  }

  /** The call fails with DuplicateLabels exactly when some frame repeats a label, and
      otherwise with RowOutOfRange exactly when the row position lies outside some frame. */
  lemma UnifyErrors(dfs: seq<Frame>, rowIndex: int, skip: seq<string>)
    ensures Unify(dfs, rowIndex, skip) == Err(DuplicateLabels) <==> SomeDuplicateLabels(dfs)
    ensures Unify(dfs, rowIndex, skip) == Err(RowOutOfRange) <==>
      !SomeDuplicateLabels(dfs) && SomeRowOutOfRange(dfs, rowIndex)
    ensures Unify(dfs, rowIndex, skip).Ok? <==> !SomeDuplicateLabels(dfs) && !SomeRowOutOfRange(dfs, rowIndex)
  {
  }

  /** On success: one array per frame in input order; the dates are the union columns and the
      time axis is `0 .. len(union_cols) - 1`. With skipped columns, array `k` has one entry per
      union column and entry `j` is frame `k`'s cell at the row under `union_cols[j]`, or NaN
      when the frame lacks that column; with no skipped columns the slice `:-0` leaves every
      array empty. */
  lemma UnifyArrays(dfs: seq<Frame>, rowIndex: int, skip: seq<string>, k: nat, j: nat)
    requires Unify(dfs, rowIndex, skip).Ok? && k < |dfs|
    ensures var u := Unify(dfs, rowIndex, skip).value;
      |u.arrays| == |dfs| && u.dates == UnionCols(dfs, skip) &&
      |u.timeAxis| == |u.dates| && (forall t :: 0 <= t < |u.timeAxis| ==> u.timeAxis[t] == t) &&
      RowInRange(rowIndex, |dfs[k].rows|) &&
      (|skip| == 0 ==> u.arrays[k] == []) &&
      (|skip| > 0 ==> |u.arrays[k]| == |u.dates|) &&
      (|skip| > 0 && j < |u.dates| ==>
        u.arrays[k][j] == CellOrNaN(dfs[k].rows[RowPosition(rowIndex, |dfs[k].rows|)], u.dates[j]))
  {
    var union := UnionCols(dfs, skip);
    var u := Unify(dfs, rowIndex, skip).value;
    assert u.arrays[k] == Extracted(dfs[k], union, skip, rowIndex).value;
    if |skip| > 0 && j < |union| {
      var p := RowPosition(rowIndex, |dfs[k].rows|);
      ReindexedCell(dfs[k], union + skip, p, j);
    }
  }

  /** In a frame whose rows hold a cell for each of its labels, an entry of the extracted array
      is NaN when the frame lacks the union column and the frame's own cell otherwise. */
  lemma UnifyMissingColumnIsNaN(dfs: seq<Frame>, rowIndex: int, skip: seq<string>, k: nat, j: nat)
    requires Unify(dfs, rowIndex, skip).Ok? && k < |dfs| && WellFormed(dfs[k])
    requires |skip| > 0 && j < |UnionCols(dfs, skip)|
    ensures var u := Unify(dfs, rowIndex, skip).value;
      var row := dfs[k].rows[RowPosition(rowIndex, |dfs[k].rows|)];
      (u.dates[j] !in dfs[k].columns ==> u.arrays[k][j] == NaN) &&
      (u.dates[j] in dfs[k].columns ==> u.arrays[k][j] == row[u.dates[j]])
  {
    UnifyArrays(dfs, rowIndex, skip, k, j);
  }

  // ---------------------------------------------------------------------------
  // The copy of the outlier filter

  /** `utils.filter_outliers(a, b, threshold)`: the same mask `abs(a - b) <= threshold` and
      the same boolean indexing as the outlier-filter module, so the same result. */
  function FilterOutliers(a: seq<Val>, b: seq<Val>, threshold: real): (r: (seq<Val>, seq<Val>))
    requires |a| == |b|
    ensures r == OutlierFilter.FilterOutliers(a, b, threshold)
  {
    var mask := seq(|a|, i requires 0 <= i < |a| => OutlierFilter.Kept(a[i], b[i], threshold));
    assert mask == OutlierFilter.Mask(a, b, threshold);
    (BoolIndex(a, mask), BoolIndex(b, mask))
  }

  /** The copy keeps and drops the same pairs as the outlier-filter module: both outputs have
      one length, each kept pair is within the inclusive threshold and NaN-free, and the kept
      pairs are the inputs at the module's kept indices. */
  lemma FilterOutliersAgrees(a: seq<Val>, b: seq<Val>, threshold: real)
    requires |a| == |b|
    ensures FilterOutliers(a, b, threshold) == OutlierFilter.FilterOutliers(a, b, threshold)
    ensures var r := FilterOutliers(a, b, threshold);
      var idx := OutlierFilter.KeptIndices(a, b, threshold);
      |r.0| == |r.1| == |idx| <= |a| &&
      (forall j :: 0 <= j < |r.0| ==> OutlierFilter.Kept(r.0[j], r.1[j], threshold)) &&
      (forall j :: 0 <= j < |r.0| ==> r.0[j] == a[idx[j]] && r.1[j] == b[idx[j]])
  {
    assert FilterOutliers(a, b, threshold) == OutlierFilter.FilterOutliers(a, b, threshold);
    OutlierFilter.FilterSelectsKeptPairs(a, b, threshold);
  }
}
