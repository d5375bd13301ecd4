# pixltsnorm bridging engine, modelled in Dafny

pixltsnorm puts readings from several satellite sensors on one scale. For two sensors it drops
the pairs that differ by more than a threshold, fits `b = coef*a + intercept` by least squares,
and returns that affine transform. For a list of sensors it folds the pairwise transforms into
one cumulative transform. For whole scenes stored as tables (one row per pixel, one column per
date, plus `lon`/`lat`) it does the following:

- it bridges two tables over every cell they share;
- it chains L5 -> L7 -> L8;
- it puts several tables on the sorted union of their date columns and reads one pixel's
  time series out of each.

The model has one module per source file, plus two shared modules:

| file | module | models |
|---|---|---|
| `common.dfy` | `Common` | float cells (`Num(real)` or `NaN`), the exceptions as a `Result`, numpy boolean indexing |
| `frames.dfy` | `Frames` | a DataFrame as column labels plus rows of label -> cell maps; Python string order; `sorted(set(...))`; `iloc` positions; `reindex`; slice stops; row-major `flatten` |
| `outlier_filter.dfy` | `OutlierFilter` | `filter_outliers` |
| `regression.dfy` | `Regression` | `fit_regression` as exact least squares; `apply_regression` |
| `harmonize.dfy` | `Harmonize` | `harmonize_series`; `chain_harmonization` as an imperative loop |
| `utils.dfy` | `Utils` | `unify_and_extract_timeseries` as three loops; the copy of `filter_outliers` |
| `global_harmonize.dfy` | `GlobalHarmonize` | `global_bridging` and `chain_global_bridging` |

On inputs that meet the preconditions listed under "## Left out", every exception the code
raises, or lets numpy, pandas, scikit-learn or Python raise, is an `Err` value. The errors
those preconditions rule out (unequal array lengths, repeated labels in `global_bridging`,
non-numeric cells) are not modelled. The model handles these errors:

- too few sensors, or a threshold list of the wrong length;
- no overlapping date column;
- a fit on zero samples, or on NaN;
- a row position outside a frame, or a threshold tuple that is too short;
- `reindex` on repeated labels.

The two source functions that loop are Dafny methods. Each is proved equal to a specification
function, and the lemmas are stated about those functions:

- `Harmonize.ChainHarmonization` is proved against `Harmonize.Chained`;
- `Utils.UnifyAndExtractTimeseries` is proved against `Utils.Unify`.

`chain_harmonization` always chains forward from sensor 0, and a failed fit raises rather
than returning a placeholder transform.

## Model

| member | source | states |
|---|---|---|
| Common.BoolIndexSelects | pixltsnorm/outlier_filter.py:20 | `s[mask]` has one entry per true position of the mask, and entry j is the element at the j-th true position, in order |
| Common.TrueIndicesCount | pixltsnorm/global_harmonize.py:75-80 | the number of elements boolean indexing keeps equals the number of true positions of the mask |
| Frames.SortUnique | pixltsnorm/utils.py:35 | `sorted(set(xs))` is strictly ascending in Python's string order and holds exactly the labels of `xs` |
| Frames.SortedUnique | pixltsnorm/utils.py:35 | two strictly sorted label lists with the same members are equal, so the sorted union is determined by its set |
| Frames.RowPosition | pixltsnorm/utils.py:44 | a valid `iloc` row position designates a row inside the frame: itself when non-negative, counted from the end when negative |
| Frames.SliceEnd | pixltsnorm/utils.py:44 | the end of the slice `[:stop]` lies within the row: `len + stop` for a negative stop inside the row, `0` for one before its start, clamped to the length otherwise, and `-0` is `0` |
| Frames.FlattenLength | pixltsnorm/global_harmonize.py:71-72 | the flattened table has one cell per row and selected column |
| Frames.FlattenAt | pixltsnorm/global_harmonize.py:71-72 | cell `r*m + j` of the flattened table is row r's cell under column j: row-major order |
| OutlierFilter.KeptIndices | pixltsnorm/outlier_filter.py:18-19 | the kept positions are strictly ascending and are exactly the positions whose pair holds two numbers at most `threshold` apart |
| OutlierFilter.FilterOutliers | pixltsnorm/outlier_filter.py:3-20 | `filter_outliers` returns two arrays of one length, no longer than its inputs, and neither holds NaN |
| OutlierFilter.FilterSelectsKeptPairs | pixltsnorm/outlier_filter.py:18-20 | both outputs have one length, at most the input's; every kept pair is NaN-free and within the inclusive threshold; entry j of each output is the input at the j-th kept index, so order is preserved and both outputs share one index set |
| OutlierFilter.FilterKeepsExactly | pixltsnorm/outlier_filter.py:18-19 | an index is kept iff both values are numbers with `abs(a - b) <= threshold`; a pair holding NaN is always dropped |
| OutlierFilter.FilterKeepsAll | pixltsnorm/outlier_filter.py:18-20 | when every pair is within the threshold the filter returns its inputs unchanged |
| OutlierFilter.FilterIdempotent | pixltsnorm/outlier_filter.py:18-20 | filtering the output again with the same threshold returns it unchanged |
| OutlierFilter.FilterMonotone | pixltsnorm/outlier_filter.py:19 | a larger threshold keeps a superset of the indices, and so at least as many pairs |
| OutlierFilter.FilterNegativeThreshold | pixltsnorm/outlier_filter.py:19 | a negative threshold keeps nothing |
| Regression.ApplyRegression | pixltsnorm/regression.py:39-42 | the result has the input's length, and entry i is `coef*x[i] + intercept`; NaN stays NaN |
| Regression.ApplyIdentity | pixltsnorm/regression.py:39-42 | with `coef = 1`, `intercept = 0` the input comes back unchanged |
| Regression.ThenApplies | pixltsnorm/harmonize.py:116-123 | the composed model `(c1*c2, c2*i1 + i2)` applied to a value is the second model applied to the first model's output |
| Regression.ApplyThen | pixltsnorm/harmonize.py:116-123 | the same composition law, applied elementwise to a whole array |
| Regression.FitRegression | pixltsnorm/regression.py:5-25 | `fit_regression` succeeds iff the sample is non-empty and NaN-free; it refuses an empty sample as EmptyFit and a sample holding NaN as NaNInFit |
| Regression.FitRegressionOutcome | pixltsnorm/regression.py:5-25 | the fit is refused exactly when the sample is empty or holds NaN; an empty sample is refused as such; a fitted line passes through the means (`intercept = mean(y) - coef*mean(x)`) |
| Regression.OlsRecoversLine | pixltsnorm/regression.py:19-25 | on points lying exactly on `y = s*x + b` with two distinct x values, least squares returns `(s, b)` |
| Regression.FitRecoversLine | pixltsnorm/regression.py:5-25 | the same for `fit_regression` on NaN-free arrays: the fit succeeds with `coef = s`, `intercept = b` |
| Regression.OlsNormalEquations | pixltsnorm/regression.py:19-25 | the residuals of the fitted line sum to zero and are uncorrelated with x: the normal equations of least squares |
| Regression.ResidualsSumToZero | pixltsnorm/regression.py:19-25 | the residuals of any line through the means sum to zero |
| Harmonize.HarmonizeSeries | pixltsnorm/harmonize.py:12-48 | the only error is the fit's refusal of an empty sample, and the two filtered arrays have one length, no longer than the inputs |
| Harmonize.HarmonizeFailsOnlyWhenNothingKept | pixltsnorm/harmonize.py:33-36 | the harmonisation fails exactly when the filter keeps no pair |
| Harmonize.HarmonizeFiltersThenFits | pixltsnorm/harmonize.py:33-46 | `filtered_a`/`filtered_b` are exactly `filter_outliers(a, b, threshold)`, and `coef`/`intercept` are the fit on those filtered arrays, a line through their means |
| Harmonize.Transform | pixltsnorm/harmonize.py:39-40 | the `transform` closure maps entry i to `coef*x[i] + intercept` and keeps the length |
| Harmonize.HarmonizeRecoversLine | pixltsnorm/harmonize.py:33-46 | on in-threshold data lying exactly on `b = s*a + t` with two distinct a values, every pair is kept and `(s, t)` is recovered |
| Harmonize.ComposeSlopeIsProduct | pixltsnorm/harmonize.py:97-126 | the folded slope, starting from `(1, 0)`, is the product of the pairwise slopes |
| Harmonize.ComposeAppliesInOrder | pixltsnorm/harmonize.py:116-126 | applying the folded transform equals applying the pairwise transforms in order 0..n-2 |
| Harmonize.ComposeSingle | pixltsnorm/harmonize.py:116-126 | for one pair the fold is that pair's `(coef, intercept)` |
| Harmonize.FoldStep | pixltsnorm/harmonize.py:122-126 | the loop's update `(cs*a, a*ci + b)` keeps the cumulative pair equal to the fold of the pairwise models so far |
| Harmonize.ChainThresholds | pixltsnorm/harmonize.py:84-90 | `None` becomes n-1 copies of 0.2; a given list is used as it is |
| Harmonize.ChainPairsAreHarmonizations | pixltsnorm/harmonize.py:100-114 | the collected pairs are, in order, the harmonisations of each step's reference onto the next sensor with that step's threshold |
| Harmonize.ChainPairsFailWhenAPairFails | pixltsnorm/harmonize.py:102-114 | the chain's pairs fail, with the fit's error, exactly when one pairwise harmonisation fails |
| Harmonize.ChainPairsStopAtFailure | pixltsnorm/harmonize.py:102-110 | once a step fails, later steps report that same error |
| Harmonize.ChainedRefuses | pixltsnorm/harmonize.py:80-90 | fewer than two sensors raise; otherwise a threshold list whose length is not n-1 raises |
| Harmonize.ChainedMeaning | pixltsnorm/harmonize.py:80-141 | on accepted arguments the chain fails exactly when a pair fails; on success `pairwise` has n-1 entries, entry i is the harmonisation of step i's reference onto `sensor_list[i+1]` with `outlier_thresholds[i]`, and the final slope/intercept is the fold of their models |
| Harmonize.ChainHarmonization | pixltsnorm/harmonize.py:51-141 | the loop as written, with the reference fixed at sensor 0, returns exactly the specification `Chained(..., false)` |
| Harmonize.ChainHarmonizationAdjacent | pixltsnorm/harmonize.py:56-65 | the loop with the reference moved on each step returns exactly `Chained(..., true)`: each pair is sensor i onto sensor i+1 |
| Harmonize.AdjacentChainTelescopes | pixltsnorm/harmonize.py:56-65 | if every adjacent step maps sensor i's reading onto sensor i+1's, the folded transform maps sensor 0's reading onto the last sensor's |
| Harmonize.ChainAsWrittenOvershoots | pixltsnorm/harmonize.py:100 | on sensors reading `[0,u]`, `[0,2u]`, `[0,4u]` the chain as written returns slope 8 and maps sensor 0's `u` to `8u`, not to the last sensor's `4u` |
| Harmonize.ChainAdjacentReachesLast | pixltsnorm/harmonize.py:56-61 | on the same sensors the adjacent chain returns slope 4 and maps `u` onto the last sensor's `4u` |
| Utils.ValidColsMembers | pixltsnorm/utils.py:32 | a label is kept iff the frame has it and it is not skipped |
| Utils.UnionColsMeaning | pixltsnorm/utils.py:30-35 | `union_cols` is strictly sorted, free of duplicates, and holds exactly the unskipped labels of some frame |
| Utils.Arange | pixltsnorm/utils.py:48 | `np.arange(n)` is `0 .. n-1` |
| Utils.UnifyAndExtractTimeseries | pixltsnorm/utils.py:5-50 | the three loops (label lists, reindex, row extraction) return exactly the specification `Unify` |
| Utils.UnifyErrors | pixltsnorm/utils.py:37-45 | the call fails with DuplicateLabels iff some frame repeats a label; otherwise with RowOutOfRange iff the row position is outside some frame; otherwise it succeeds |
| Utils.UnifyArrays | pixltsnorm/utils.py:37-48 | one array per frame in input order; `dates` are the union columns and `time_axis` is `0 .. len-1`; with skipped columns array k has `len(union_cols)` entries and entry j is frame k's cell under `union_cols[j]` (NaN if missing); with empty `skip_cols` the slice `:-0` leaves every array empty |
| Utils.UnifyMissingColumnIsNaN | pixltsnorm/utils.py:39-44 | an entry is NaN when the frame lacks that union column and is the frame's own cell otherwise |
| Utils.FilterOutliers | pixltsnorm/utils.py:53-70 | the copy of `filter_outliers` in utils.py returns exactly what the outlier-filter module's `filter_outliers` returns |
| Utils.FilterOutliersAgrees | pixltsnorm/utils.py:53-70 | the copy of `filter_outliers` returns the same arrays as the outlier-filter module, with the same keep/drop rule and index mapping |
| GlobalHarmonize.SharedColsMembers | pixltsnorm/global_harmonize.py:57-61 | a label is shared iff both frames have it and it is not `lon`/`lat` |
| GlobalHarmonize.OverlapColsMeaning | pixltsnorm/global_harmonize.py:57-61 | the overlap columns are strictly sorted and are exactly the labels of both frames other than `lon` and `lat` |
| GlobalHarmonize.GlobalBridging | pixltsnorm/global_harmonize.py:25-100 | `global_bridging` fails only with NoOverlap or EmptyFit; a bridge reports `n_used = len(filtered_a) = len(filtered_b)`, at most `n_initial` |
| GlobalHarmonize.GlobalBridgingErrors | pixltsnorm/global_harmonize.py:62-64 | an empty overlap is refused with NoOverlap, and only then, before any fitting; any other failure is the fit's refusal after the filter kept nothing |
| GlobalHarmonize.FlatPairsRowMajor | pixltsnorm/global_harmonize.py:67-72 | the two flattened arrays are row-major over (row, overlap column) and align index for index: entry `r*m + j` of each is that frame's cell at row r, column j |
| GlobalHarmonize.NumberPairsMeaning | pixltsnorm/global_harmonize.py:75-80 | after the NaN mask no pair holds NaN, the pairs keep their flattened order, and there are as many as positions where both cells are numbers |
| GlobalHarmonize.GlobalBridgingMeaning | pixltsnorm/global_harmonize.py:80-100 | a bridge is `harmonize_series` on the NaN-free pairs: its coef, intercept and filtered arrays are that call's; `n_initial` counts the NaN-free pairs; `n_used = len(filtered_a) <= n_initial`; the filtered arrays hold no NaN |
| GlobalHarmonize.ChainGlobalBridging | pixltsnorm/global_harmonize.py:103-139 | an empty threshold tuple fails before any bridging; a successful chain has read both thresholds, and its L5 -> L8 model is `Then` of L5 -> L7 = `(c, d)` and L7 -> L8 = `(a, b)`, which is `coef = a*c`, `intercept = a*d + b` |
| GlobalHarmonize.ChainGlobalComposes | pixltsnorm/global_harmonize.py:120-139 | L5 -> L7 is bridged with `outlier_thresholds[0]` and L7 -> L8 with `outlier_thresholds[1]`; L5 -> L8 is their composition (`coef = a*c`, `intercept = a*d + b`), and applying it is applying L5 -> L7 then L7 -> L8 |
| GlobalHarmonize.ChainGlobalSucceeds | pixltsnorm/global_harmonize.py:120-139 | two successful bridges give the chain of those bridges and their composition |
| GlobalHarmonize.ChainGlobalErrors | pixltsnorm/global_harmonize.py:120-126 | a missing first threshold fails before any bridging; a failing first bridge fails the chain; a missing second threshold fails only after the first bridge; a failing second bridge fails the chain; otherwise the chain succeeds |

## Left out

- pixltsnorm/models.py is not part of this model: `fit_seasonal` delegates to statsmodels, and `fit_linear` duplicates `fit_regression`.
- The test against Earth Engine and the re-exports in `__init__.py` are I/O and glue.
- scikit-learn's `LinearRegression` is not modelled. The fit is exact least squares over the reals. It gives the same outcome as scikit-learn on an empty sample (refused), on NaN input (refused) and on x without spread (`coef = 0`). The `'model'` object in the result is not kept.
- IEEE-754 rounding is not modelled: numbers are exact reals, and NaN is a constructor of its own. Infinities are not represented.
- `pd.to_datetime` is not modelled: `dates` is the list of union column labels it would parse, and `date_format` is not a parameter.
- numpy broadcasting of arrays of different lengths is not modelled. Equal lengths, equal sensor lengths (`SameLength`) and equal row counts (`Aligned`) are preconditions.
- `transform` is not modelled as a closure. It is the pure function `Harmonize.Transform` of the pair result.
- GlobalHarmonize.GlobalBridging: requires well-formed frames (unique labels, each row holding every label). It does not model pandas selecting several columns for a repeated label.
- The cells of a frame are numbers or NaN only: the non-numeric cells pandas allows are not represented.
- Harmonize.ChainHarmonization: `sensor_list` and `outlier_thresholds` are sequences, and `None` is `Option.None`. Other Python sequence types are not distinguished.
- Utils.UnifyAndExtractTimeseries: `skip_cols` is a sequence (tuple order), and the default `row_index=0` is not a default here.
- Keyword defaults are not defaults in the model: every caller passes the threshold (`threshold=0.2` and `outlier_threshold=0.2` in `filter_outliers`, `harmonize_series` and `global_bridging`), the threshold pair (`(0.2, 0.2)` in `chain_global_bridging`) and `skip_cols` (`("lon", "lat")` in `unify_and_extract_timeseries`) explicitly. Only `chain_harmonization`'s `None` default is modelled, as `ChainThresholds`.

## Findings

| source | as written | input that shows it | evidently intended | confidence | as-written member | corrected member |
|---|---|---|---|---|---|---|
| pixltsnorm/harmonize.py:100 | `current_reference` is set to `sensor_list[0]` and never reassigned, so pair i harmonises sensor 0 onto sensor i+1; the loop then folds these models as if they were adjacent steps | sensors `[0,u]`, `[0,2u]`, `[0,4u]` with `u > 0` and thresholds `[t, t]`, `t >= 3u`: the pairs fit slopes 2 and 4, the chain returns slope 8, and sensor 0's `u` maps to `8u` instead of the last sensor's `4u` | each step harmonises sensor i onto sensor i+1 (as the docstring at lines 56-61 describes), so the fold maps sensor 0 onto the last sensor | not executed | Harmonize.ChainAsWrittenOvershoots | Harmonize.ChainHarmonizationAdjacent |
