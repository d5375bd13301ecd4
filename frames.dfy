/** The slice of pandas that the core relies on: a DataFrame with named columns and
    positional rows, Python's ordering of strings, `sorted(set(...))`, and row positions
    that may count from the end. */
module Frames {
  import opened Common

  /** A DataFrame: its column labels in order, and one map from label to cell per row. */
  datatype Frame = Frame(columns: seq<string>, rows: seq<map<string, Val>>)

  /** No label appears twice. */
  predicate Distinct(s: seq<string>) {
    forall i, j :: 0 <= i < j < |s| ==> s[i] != s[j]
  }

  /** The shape pandas guarantees: unique column labels (which `reindex` needs), and every
      row holding a cell for exactly those labels. */
  predicate WellFormed(f: Frame) {
    Distinct(f.columns) &&
    forall r :: 0 <= r < |f.rows| ==> f.rows[r].Keys == set c | c in f.columns
  }

  /** The cell of a row under a label, NaN when the label is missing: what `reindex` fills in. */
  function CellOrNaN(row: map<string, Val>, c: string): Val {
    if c in row then row[c] else NaN
  }

  // ---------------------------------------------------------------------------
  // Python's string order: lexicographic on code points

  predicate StrLess(a: string, b: string) {
    if |a| == 0 then |b| > 0
    else if |b| == 0 then false
    else if a[0] < b[0] then true
    else if a[0] == b[0] then StrLess(a[1..], b[1..])
    else false
  }

  lemma {:induction false} StrLessIrreflexive(a: string)
    ensures !StrLess(a, a)
  {
    if |a| > 0 {
      StrLessIrreflexive(a[1..]);
    }
  }

  lemma {:induction false} StrLessTotal(a: string, b: string)
    requires a != b
    ensures StrLess(a, b) || StrLess(b, a)
  {
    if |a| > 0 && |b| > 0 && a[0] == b[0] {
      assert a == [a[0]] + a[1..] && b == [b[0]] + b[1..];
      StrLessTotal(a[1..], b[1..]);
    }
  }

  lemma {:induction false} StrLessTransitive(a: string, b: string, c: string)
    requires StrLess(a, b) && StrLess(b, c)
    ensures StrLess(a, c)
  {
    if |a| > 0 && a[0] == b[0] && b[0] == c[0] {
      StrLessTransitive(a[1..], b[1..], c[1..]);
    }
  }

  predicate StrictlySorted(s: seq<string>) {
    forall i, j :: 0 <= i < j < |s| ==> StrLess(s[i], s[j])
  }

  /** A strictly sorted sequence holds no label twice. */
  lemma SortedDistinct(s: seq<string>)
    requires StrictlySorted(s)
    ensures Distinct(s)
  {
    forall i, j | 0 <= i < j < |s|
      ensures s[i] != s[j]
    {
      StrLessIrreflexive(s[i]);
    }
  }

  /** Inserts a label into a strictly sorted sequence, keeping it strictly sorted and
      adding nothing when the label is already there. */
  function Insert(x: string, s: seq<string>): (r: seq<string>)
    requires StrictlySorted(s)
    ensures StrictlySorted(r)
    ensures forall y :: y in r <==> y == x || y in s
  {
    if |s| == 0 then [x]
    else if x == s[0] then s
    else if StrLess(x, s[0]) then
      assert forall k :: 0 < k < |s| ==> StrLess(x, s[k]) by {
        forall k | 0 < k < |s| ensures StrLess(x, s[k]) {
          StrLessTransitive(x, s[0], s[k]);
        }
      }
      [x] + s
    else
      StrLessTotal(x, s[0]);
      var t := Insert(x, s[1..]);
      assert forall k :: 0 <= k < |t| ==> StrLess(s[0], t[k]) by {
        forall k | 0 <= k < |t| ensures StrLess(s[0], t[k]) {
          assert t[k] in t;
        }
      }
      [s[0]] + t
  }

  /** `sorted(set(xs))`: the distinct labels of `xs` in ascending order. */
  function SortUnique(xs: seq<string>): (r: seq<string>)
    ensures StrictlySorted(r)
    ensures forall y :: y in r <==> y in xs
  {
    if |xs| == 0 then []
    else
      var n := |xs| - 1;
      assert xs == xs[..n] + [xs[n]];
      Insert(xs[n], SortUnique(xs[..n]))
  }

  /** `sorted` of a set is the only strictly sorted sequence with those elements. */
  lemma {:induction false} SortedUnique(s: seq<string>, t: seq<string>)
    requires StrictlySorted(s) && StrictlySorted(t)
    requires forall y :: y in s <==> y in t
    ensures s == t
  {
    assert |s| > 0 ==> s[0] in t;
    assert |t| > 0 ==> t[0] in s;
    if |s| > 0 && |t| > 0 {
      var k :| 0 <= k < |t| && t[k] == s[0];
      var l :| 0 <= l < |s| && s[l] == t[0];
      if s[0] != t[0] {
        StrLessTransitive(s[0], t[0], s[0]);
        StrLessIrreflexive(s[0]);
        assert false;
      }
      forall y
        ensures y in s[1..] <==> y in t[1..]
      {
        if y in s[1..] {
          var i :| 1 <= i < |s| && s[i] == y;
          StrLessIrreflexive(y);
          assert y in t;
          var j :| 0 <= j < |t| && t[j] == y;
          assert t[1..][j - 1] == y;
        }
        if y in t[1..] {
          var i :| 1 <= i < |t| && t[i] == y;
          StrLessIrreflexive(y);
          assert y in s;
          var j :| 0 <= j < |s| && s[j] == y;
          assert s[1..][j - 1] == y;
        }
      }
      SortedUnique(s[1..], t[1..]);
      assert s == [s[0]] + s[1..] && t == [t[0]] + t[1..];
    }
  }

  // ---------------------------------------------------------------------------
  // Positional row access (`iloc`)

  /** A Python row position is valid when `-n <= i < n`. */
  predicate RowInRange(i: int, n: nat) {
    -(n as int) <= i < n
  }

  /** The row a valid Python position designates; negative positions count from the end. */
  function RowPosition(i: int, n: nat): (p: nat)
    requires RowInRange(i, n)
    ensures p < n
    ensures i >= 0 ==> p == i
    ensures i < 0 ==> p == n + i
  {
    if i >= 0 then i else n + i
  }

  // ---------------------------------------------------------------------------
  // Reading cells: `reindex`, `iloc` with a slice, `values.flatten()`

  /** The cells of one row under the given labels, in label order, NaN for a missing label. */
  function Cells(row: map<string, Val>, cols: seq<string>): seq<Val> {
    seq(|cols|, j requires 0 <= j < |cols| => CellOrNaN(row, cols[j]))
  }

  /** `df.reindex(columns=cols)`: the frame relabelled to `cols`, a label the frame lacks
      giving a column of NaN. */
  function Reindex(f: Frame, cols: seq<string>): Frame {
    Frame(cols, seq(|f.rows|, r requires 0 <= r < |f.rows| => map c | c in cols :: CellOrNaN(f.rows[r], c)))
  }

  /** Where Python's slice `[:stop]` ends in a sequence of length `len`: a negative stop
      counts from the end (and stops at 0), a stop past the end is clamped. `-0` is `0`. */
  function SliceEnd(len: nat, stop: int): (e: nat)
    ensures e <= len
    ensures stop < 0 && len + stop >= 0 ==> e == len + stop
    ensures stop < 0 && len + stop < 0 ==> e == 0
    ensures stop >= 0 ==> e == (if stop <= len then stop else len)
  {
    if stop < 0 then (if len + stop < 0 then 0 else len + stop)
    else if stop <= len then stop
    else len
  }

  /** `df[cols].values.flatten()`: the cells under `cols`, row after row. */
  function Flatten(rows: seq<map<string, Val>>, cols: seq<string>): seq<Val> {
    if |rows| == 0 then []
    else Flatten(rows[..|rows| - 1], cols) + Cells(rows[|rows| - 1], cols)
  }

  lemma RowMajorBound(r: nat, j: nat, m: nat, n: nat)
    requires r < n && j < m
    ensures r * m + j < n * m
  {
    assert (r + 1) * m <= n * m;
  }

  /** The flattened array has one cell per row and label. */
  lemma {:induction false} FlattenLength(rows: seq<map<string, Val>>, cols: seq<string>)
    ensures |Flatten(rows, cols)| == |rows| * |cols|
  {
    if |rows| > 0 {
      var n, m := |rows| - 1, |cols|;
      FlattenLength(rows[..n], cols);
      assert (n + 1) * m == n * m + m;
    }
  }

  /** Cell `r * |cols| + j` of the flattened array is row `r` under label `cols[j]`: the
      cells are in row-major order. */
  lemma {:induction false} FlattenAt(rows: seq<map<string, Val>>, cols: seq<string>, r: nat, j: nat)
    requires r < |rows| && j < |cols|
    ensures |Flatten(rows, cols)| == |rows| * |cols|
    ensures r * |cols| + j < |Flatten(rows, cols)|
    ensures Flatten(rows, cols)[r * |cols| + j] == CellOrNaN(rows[r], cols[j])
  {
    var n, m := |rows| - 1, |cols|;
    var init := rows[..n];
    FlattenLength(rows, cols);
    FlattenLength(init, cols);
    RowMajorBound(r, j, m, |rows|);
    var k := r * m + j;
    if r < n {
      RowMajorBound(r, j, m, n);
      FlattenAt(init, cols, r, j);
      assert Flatten(rows, cols)[k] == Flatten(init, cols)[k];
    } else {
      assert k == n * m + j;
      assert Flatten(rows, cols)[k] == Cells(rows[n], cols)[j];
    }
  }
}
