# Student performance dashboard: the statistics layer, in Dafny

The dashboard reads the student table (one row per student: course, family
background, habits, absences and the final grade G3 on a 0..20 scale). Each
page draws charts from it with D3. Under the drawing code sits a small,
sequential layer that coerces cells to numbers, filters rows and computes
statistics. Several page scripts repeat that layer with small variations. This
project models the layer once and cites each script's copy against it:

- `values.dfy` (module `Values`): what a cell can hold (loader text, a number, NaN,
  `undefined`) and JavaScript's unary `+` on it. `Coerce` stores `+x`, or
  `isNaN(+x) ? 0 : +x`, back into a row.
- `coercion.dfy` (module `Coercion`): the in-place `data.forEach` passes of the
  load callbacks. The row array is an `array<Row>`. Each row is replaced by its
  updated copy, with the same cells rewritten in the same order as the
  scripts. There is one method per distinct pass.
- `filtering.dfy` (module `Filtering`): `Array.prototype.filter` as an
  order-preserving subsequence, with its algebra: membership, idempotence,
  composition and counting.
- `academic_filter.dfy` (module `AcademicFilter`): `filterData`, the five
  drop-downs with the wildcard `"all"`, and `resetFilters`.
- `grade_bands.dfy` (module `GradeBands`): the three G3 bands of the radar pages.
  Any other drop-down value passes every row through.
- `radar.dfy` (module `Radar`): `d3.mean(...) || fallback` for the five radar
  axes, on both radar pages, including the early exit on an empty band.
- `histogram.dfy` (module `Histogram`): `gradeCounts`, the 21 bars of the grade
  bar chart.
- `box_plot.dfy` (module `BoxPlot`): `calculateBoxPlotData`. It covers
  grouping by a column (`d3.group`), the ascending sort, the quartiles (R-7
  linear interpolation, which is what `d3.quantile` documents) and the
  summary record.
- `regression.dfy` (module `Regression`): `calculateLinearRegression`, the
  least-squares line of G3 against absences, over exact reals.

Inputs that come from the page (the drop-down values) are parameters. Loading
the file is not modelled: the loaded rows are the input. Every statistic is a
function of the rows it is given.

## Model

| member | source | states |
|---|---|---|
| Values.ToNumber | scripts/academic.js:301-303 | unary `+` on a cell: a number is itself, NaN and `undefined` give NaN, blank text gives 0, and the text of a whole number (white space around it allowed) gives that number |
| Values.Coerce | scripts/behavioural.js:10-12 | the stored cell is always a number, or NaN under plain `+`. It is NaN exactly when `+` fails and there is no zero fallback. Reading it back with `+` gives the parsed number, or 0 with the fallback. |
| Values.ParseIntToString | scripts/academic.js:301-303 | `+` reads the loader's decimal text of any integer (negative ones included) back as that integer |
| Values.CoerceIdempotent | scripts/demographic.js:19 | coercing an already coerced cell leaves it as it is |
| Coercion.CoerceRow | scripts/test.js:10-15 | the `forEach` callback on one row: the rewritten row has exactly the old row's columns plus the pass's target columns (CoerceRowChangesOnlyTargets gives their values) |
| Coercion.CoerceRowChangesOnlyTargets | scripts/test.js:9-16 | one row through a well-formed pass gains exactly the target cells. Each target holds the coerced value of its source cell as the row was before the pass. Every other cell is unchanged. |
| Coercion.CoerceAll | scripts/test.js:9-16 | the pass over the whole array keeps the row count; CoerceAllRows states each row's contents |
| Coercion.CoerceAllRows | scripts/test.js:9-16 | row i of the pass is row i of the input with exactly the plan's cells coerced and every other cell kept |
| Coercion.CoerceColumns | scripts/radar-chart.js:9-16 | the `forEach` loop rewrites the array in place: afterwards element i is the coerced copy of the old element i, for every i |
| Coercion.RunPass | scripts/behavioural.js:9-13 | after the loop, every row relates to its old self as CoerceRowChangesOnlyTargets states |
| Coercion.AcademicLoad | scripts/academic.js:300-304 | absences, G3 and studytime are rewritten with plain `+`; nothing else in any row changes |
| Coercion.GradeLoad | scripts/script.js:18-20 | only G3 is rewritten, with the zero fallback |
| Coercion.ParentEducationLoad | scripts/demographic.js:270-274 | G3, Medu and Fedu are rewritten with plain `+`; nothing else changes |
| Coercion.BehaviourLoad | scripts/behavioural.js:9-13 | G3 and Walc are rewritten with the zero fallback, and Goout is written from lower-case goout; nothing else changes |
| Coercion.RadarLoad | scripts/radar-chart.js:9-16 | the six cells (Goout from goout) are rewritten with the zero fallback; nothing else changes |
| Coercion.ZeroFallbackWritesNumbers | scripts/test.js:10-15 | with the zero fallback every written cell is a number: the parsed source, or 0 |
| Coercion.PlainWritesNaNOnlyOnBadInput | scripts/academic.js:301-303 | under plain `+` a written cell is NaN exactly when its source does not parse, and otherwise holds the parsed source |
| Coercion.LoadedGradesAreNumbers | scripts/demographic.js:18-20 | after a zero-fallback pass that writes G3, every row's G3 is a number |
| Coercion.PlansWellFormed | scripts/behavioural.js:12 | in every script's pass no column is written twice, and no step reads a column an earlier step overwrote (Goout is read from goout) |
| Filtering.Filter | scripts/academic.js:69-77 | the result is an order-preserving subsequence, no longer than the input, of elements that pass |
| Filtering.FilterMembers | scripts/academic.js:69 | an element is in the result exactly when it is in the input and passes |
| Filtering.FilterKeepsAll | scripts/academic.js:69 | if every element passes, the input comes back unchanged |
| Filtering.FilterIdempotent | scripts/radar-chart.js:25 | filtering the result again with the same predicate changes nothing |
| Filtering.FilterThenFilter | scripts/academic.js:69-77 | filtering by p and then by q equals one filter by p and q |
| Filtering.FilterCounts | scripts/script.js:25 | each element keeps its multiplicity when it passes and is gone when it does not |
| Filtering.FilterLength | scripts/script.js:25 | the result is as long as the input exactly when every element passes |
| AcademicFilter.FilterData | scripts/academic.js:62-78 | an order-preserving subsequence of the data, holding exactly the rows for which each of the five selections is "all" or equals the row's cell, each matching row as many times as in the data |
| AcademicFilter.ResetKeepsEverything | scripts/academic.js:263-272 | with all five selections "all", the whole data set comes back in file order |
| AcademicFilter.FilterDataIdempotent | scripts/academic.js:69-77 | applying the same selections to the filtered rows changes nothing |
| AcademicFilter.MeetChoice | scripts/academic.js:71 | the combined choice accepts exactly the cells both choices accept; None means no cell satisfies both |
| AcademicFilter.Meet | scripts/academic.js:69-77 | the combined selection matches exactly the rows both selections match; None means no row matches both |
| AcademicFilter.FilterDataTwice | scripts/academic.js:69-77 | filtering by A and then by B equals filtering once by their combination, or gives no rows when they conflict |
| GradeBands.GradeFilter | scripts/radar-chart.js:24-32 | an order-preserving subsequence holding exactly the rows with G3 < 10, 10 <= G3 < 15 or G3 >= 15 for the three band values, and every row for any other value, each kept row as many times as in the data |
| GradeBands.OtherValueShowsAll | scripts/radar-chart.js:30-32 | a value outside the three bands returns the data unchanged |
| GradeBands.BandsPartition | scripts/test.js:43-49 | when every G3 is a number, the three bands' rows add up to the data as a multiset, so their sizes add up to the row count |
| GradeBands.OneBand | scripts/test.js:44-48 | a row whose G3 is a number is in exactly one of the three bands |
| GradeBands.BandsDisjoint | scripts/radar-chart.js:24-29 | no row is in two bands |
| GradeBands.NaNGradeInNoBand | scripts/test.js:44-48 | a row whose G3 is NaN is in no band |
| Radar.Numbers | scripts/test.js:52 | the numbers `d3.mean` averages: at most one per row, and one per row when every cell parses |
| Radar.NumbersAllParse | scripts/test.js:52-56 | when every cell of the column parses, the numbers `d3.mean` averages are exactly those cells' values, one per row in row order |
| Radar.NumbersCons | scripts/test.js:52 | on any mix of cells, the first row contributes its parsed number, or nothing when `+` gives NaN, ahead of the numbers of the remaining rows |
| Radar.Mean | scripts/test.js:52-56 | None exactly when no cell is a number; otherwise the value that, counted once per number, sums to their total |
| Radar.OrFallback | scripts/test.js:52-56 | the mean when it is defined and not 0, the fallback when it is undefined or 0 |
| Radar.RadarData | scripts/test.js:51-57 | five points, in the order famrel, freetime, goout, Walc, health; each is the column mean or, when that is undefined or 0, the axis fallback (1 for famrel, 0 otherwise) |
| Radar.FilterAndDrawRadar | scripts/test.js:39-57 | the test page's radar: always five points in axis order, each the mean of its column over the selected band, or the axis fallback when that mean is undefined or 0. When no row is in the band, all five are the fallbacks. |
| Radar.EmptyRadar | scripts/test.js:52-56 | on no rows the five values are 1, 0, 0, 0, 0 |
| Radar.FilterDataByGrade | scripts/radar-chart.js:36-49 | no radar data (the early return) exactly when no row is in the selected band; otherwise the five points of `RadarData` over the band's rows |
| Radar.PagesAgree | scripts/radar-chart.js:36-49 | the two radar pages give the same points whenever the band is non-empty; on an empty band the other page draws the fallbacks |
| Radar.MeanWithin | scripts/radar-chart.js:44-48 | the mean of numeric cells that lie in [lo, hi] is defined and lies in [lo, hi] |
| Radar.RadarOnScale | scripts/radar-chart.js:43-49 | on rows whose radar cells are all on the 1..5 scale no fallback fires, and each axis is its mean, on the same scale |
| Histogram.CountGrade | scripts/script.js:25 | a bar never counts more rows than there are |
| Histogram.GradeCounts | scripts/script.js:23-26 | 21 bars, grades 0..20 in ascending order; bar g counts the rows whose G3 is exactly the number g |
| Histogram.TotalCount | scripts/demographic.js:23-26 | the bars add up to at most the row count, and to exactly the row count when and only when every G3 is an integer in 0..20 |
| BoxPlot.Insert | scripts/demographic.js:114 | inserting into a sorted sequence gives a sorted sequence one longer, with the same elements plus the new one |
| BoxPlot.SortAscending | scripts/demographic.js:114 | `sort(d3.ascending)`: a sorted permutation of the values |
| BoxPlot.Quantile | scripts/demographic.js:115-117 | no value exactly on an empty sequence |
| BoxPlot.QuantileWithin | scripts/demographic.js:115-117 | on sorted values the quantile lies between the first and last value |
| BoxPlot.QuantileMonotone | scripts/demographic.js:115-117 | on sorted values the quantile does not decrease as p grows |
| BoxPlot.QuantileAtOrderStatistic | scripts/test.js:66-68 | when (n - 1) p is a whole number k, the quantile is the k-th sorted value |
| BoxPlot.MedianOfEvenCount | scripts/test.js:67 | the median of 2m sorted values is the average of the two middle ones |
| BoxPlot.Summarize | scripts/demographic.js:114-122 | the record keeps the group's key; min <= q1 <= median <= q3 <= max; iqr = q3 - q1 >= 0; min and max are values of the group and bound all of them; SummarizeQuartiles pins q1, median, q3, min and max to the sorted values |
| BoxPlot.SortedEnds | scripts/demographic.js:119-120 | the first and last of a sorted rearrangement are the least and greatest values |
| BoxPlot.SortedUnique | scripts/demographic.js:114 | two ascending arrangements of the same multiset of values are equal, so the sorted values do not depend on how they were sorted |
| BoxPlot.SummarizeQuartiles | scripts/demographic.js:114-122 | for any ascending arrangement s of the group's values, q1, median and q3 are the quantiles of s at 0.25, 0.5 and 0.75, and min and max are its first and last elements |
| BoxPlot.SingletonSummary | scripts/behavioural.js:36-44 | a one-row group has five equal statistics, all its value, and iqr 0 |
| BoxPlot.ColumnValues | scripts/behavioural.js:36 | `values.map(d => +d[valueKey])`: one number per row, in row order, each the row's parsed cell |
| BoxPlot.AddRowKeys | scripts/test.js:63 | adding a row to the groups keeps their keys distinct and adds the row's key |
| BoxPlot.AddRowGroups | scripts/test.js:63 | adding a row appends it to the group with its key and leaves the other groups as they are; a new key opens a one-row group at the end |
| BoxPlot.AddRowSize | scripts/test.js:63 | adding a row adds one to the total size of the groups |
| BoxPlot.AddRowWithKey | scripts/demographic.js:112 | if each group held exactly the earlier rows with its key, then after the step each holds exactly the rows so far with its key, and none is empty |
| BoxPlot.GroupBy | scripts/demographic.js:112 | `d3.group`: distinct keys, exactly the column's values; each group is non-empty and holds exactly the rows with its key, in data order; the sizes add up to the row count |
| BoxPlot.ColumnKeysHold | scripts/behavioural.js:33 | every row's key is among the column's values |
| BoxPlot.ColumnKeysOccur | scripts/behavioural.js:33 | every value of the column is some row's key |
| BoxPlot.GroupBounds | scripts/test.js:65-70 | a group's min and max bound the value of every row with the group's key |
| BoxPlot.BoxPlotData | scripts/demographic.js:111-126 | one record per group, in group order and with the group's key; each has min <= q1 <= median <= q3 <= max and iqr = q3 - q1 >= 0; BoxIsItsRows ties each record to its group's rows |
| BoxPlot.BoxIsItsRows | scripts/demographic.js:111-126 | record i is the summary, under its key, of the value column of exactly the rows whose group cell equals that key, a non-empty set of rows |
| BoxPlot.BoxSpansGroup | scripts/behavioural.js:41-42 | each record's min and max bound the value of every row with its key |
| BoxPlot.OneSummaryPerKey | scripts/test.js:63-64 | the records' keys are exactly the distinct values of the grouping column, each once |
| BoxPlot.ZeroLoadedGradesPlot | scripts/behavioural.js:9-16 | after the zero-fallback load, every G3 is a number, so the G3 box plots are defined for any file |
| BoxPlot.PlainLoadedGradesPlot | scripts/demographic.js:270-278 | after the plain load, the G3 box plots are defined exactly when every G3 in the file parses |
| Regression.Xs | scripts/academic.js:8 | one absence value per row, in row order, each the cell as `d3.sum` reads it |
| Regression.Ys | scripts/academic.js:9 | one grade per row, in row order, each the cell as `d3.sum` reads it |
| Regression.Solve | scripts/academic.js:13-14 | no line exactly when n * sumX2 - sumX^2 is 0; otherwise the slope and intercept solve both normal equations |
| Regression.Fit | scripts/academic.js:7-14 | the same, on the sums of two sequences |
| Regression.LinearRegression | scripts/academic.js:6-17 | no line exactly when the denominator vanishes; otherwise the line satisfies the least-squares normal equations for G3 against absences |
| Regression.RegressionUnique | scripts/academic.js:13-14 | when the denominator is not 0, any line satisfying the normal equations is the returned one, so the result is the least-squares line |
| Regression.PassesThroughMeans | scripts/academic.js:14 | the returned line passes through (mean absences, mean G3) |
| Regression.SumAffine | scripts/academic.js:8-9 | over points on y = a x + b, sumY = a sumX + n b |
| Regression.DotAffine | scripts/academic.js:10-11 | over points on y = a x + b, sumXY = a sumX2 + b sumX |
| Regression.OnLineNormalEquations | scripts/academic.js:8-14 | points on a line satisfy that line's normal equations |
| Regression.ExactLineRecovered | scripts/academic.js:13-14 | points lying exactly on y = a x + b, with at least two different absence counts, give back slope a and intercept b |
| Regression.SolvesNormalEquations | scripts/academic.js:13-14 | the slope and intercept formulas solve the normal equations whenever n and the denominator are not 0 |
| Regression.SolutionUnique | scripts/academic.js:13-14 | with n and the denominator not 0 the normal equations have one solution |
| Regression.DenominatorZero | scripts/academic.js:13 | n * sumX2 - sumX^2 is never negative, and is 0 exactly when all absence counts are equal (no rows and a single row included) |
| Regression.SnocSpread | scripts/academic.js:13 | one more row raises the denominator by the sum of squared distances from its x to the earlier ones |
| Regression.SquaredDistancesZero | scripts/academic.js:13 | a sum of squared distances is never negative, and is 0 exactly when every term is |
| Regression.RegressionDefined | scripts/academic.js:13 | the line exists exactly when the rows do not all have the same number of absences |

## Left out

- D3 and SVG rendering: scales, axes, boxes, bars, lines, radar geometry, legends and tooltips. They are presentation only.
- DOM wiring. The drop-down values are parameters, and event listeners, the reset buttons and zoom/pan are not modelled. For `resetFilters`, only the "all" selections it sets are modelled.
- Asynchronous loading (`d3.dsv`/`d3.csv`) and its error logging. The loaded rows are the input.
- The random jitter of scatter points, which is nondeterministic and cosmetic.
- IEEE-754 arithmetic. Numbers are exact reals, so there is no rounding, no -0, no Infinity, and no NaN arithmetic beyond the NaN cell value.
- Values.ParseNumber: `+` on text holding a decimal point, an exponent, a hex, binary or octal prefix (`0x`, `0b`, `0o`) or `Infinity` gives NaN (None) in the model, where JavaScript gives a number. The data file's numeric columns are integers. JavaScript's white space and line terminators around the number are trimmed as in JavaScript.
- Regression.LinearRegression: where the scripts divide by a zero denominator and get an infinite or NaN slope and intercept, the model returns None. It does not require the denominator to be non-zero, because the scripts do not guard it. DenominatorZero and RegressionDefined say exactly when that happens: no rows, one row, or all absence counts equal.
- BoxPlot.BoxPlotData: requires every value cell to parse. The position of NaN values after `sort(d3.ascending)` is not modelled. ZeroLoadedGradesPlot and PlainLoadedGradesPlot show when the requirement holds.
- BoxPlot.ColumnValues: requires every value cell to parse, for the same reason as BoxPlotData. `values.map(d => +d[valueKey])` would put NaN in the array for a cell that does not parse, and the model has no NaN among the reals.
- BoxPlot.Quantile: `d3.quantile` and `d3.median` are assumed to be the R-7 estimator d3 documents, because the library's source is not part of this model. Likewise `d3.group` is assumed to group by first appearance, keeping data order within each group, with cells compared by value. `d3.mean` and `d3.sum` are assumed to skip cells that `+` turns into NaN, and the model reads a skipped sum term as 0.
- `calculateBoxPlotData` and `gradeCounts` leave the input rows unchanged. The model states this only implicitly: they are functions of immutable sequences, and there is no in-place alternative to compare against.
- The page-level variable `originalData` (assigned once after loading) is not a separate entity: the data sequence is passed in.
- data/student-merge.py is not part of this model. It is a pandas read/concat/write script.
- The root script.js is not part of this model. It only loads the file and logs it.
