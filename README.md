# BMW sales dashboard: the filter-and-aggregate engine

The BMW Data Analytics Dashboard is a Streamlit page over a table of BMW sales
records. Each record has a model, year, region, fuel type, transmission, colour,
price, sales volume, engine size and mileage. The page works in four steps:

- It loads the table and coerces the five numeric columns. A cell that is not a
  number becomes missing; it does not fail the load.
- It narrows the table to the rows whose model, year, region, fuel type and
  transmission are all among the sidebar's selected values.
- It computes everything it shows from that filtered view:
  - the headline totals and the magnitude band each total is printed in;
  - the top-selling model, region and fuel type;
  - sales per (year, model), per region, per transmission and per colour;
  - price per model, ranked in descending order;
  - the rows the correlation heatmap reads;
  - sales per year with the year-over-year growth in percent.
- It draws the page, which is not modelled.

This project models that engine in Dafny as pure functions over sequences of
rows, and proves the engine's properties as contracts and lemmas. The modules
follow the pipeline:

| module | file | what it holds |
|---|---|---|
| `Records` | records.dfy | the row, dimensions, metrics, the group key of a row, column names |
| `KeyOrder` | key_order.dfy | the ascending order pandas sorts group keys in (a strict total order) |
| `Coercion` | coercion.dfy | `to_numeric(errors="coerce")` on one decimal cell |
| `Loading` | loading.dfy | `load_data`: required columns, one row per record, coerced cells |
| `Filtering` | filtering.dfy | the selection, the five-way row mask, the sidebar defaults |
| `Aggregates` | aggregates.dfy | totals that skip missing values; `groupby(...).sum()` |
| `Ranking` | ranking.dfy | `sort_values(ascending=False)` and `idxmax` (the leaders) |
| `Growth` | growth.dfy | `pct_change() * 100` over the per-year sums |
| `Bands` | bands.dfy | the branch `format_large_number` takes |
| `Correlation` | correlation.dfy | the complete-row input of the heatmap and its guard |
| `Dashboard` | dashboard.dfy | one recomputation of the page, and facts relating its figures |

Numbers are exact reals, not floats. A missing value is `None`. A group key
is a sequence of atoms, text or number, one per grouped column. That lets the
two-column grouping by (year, model) share the machinery of the one-column
groupings.

## Model

| member | source | states |
|---|---|---|
| Records.KeyOf | BMW_dataset.py:75 | a row's key under a grouping exists iff every grouped value is present; it has one atom per grouped column, each equal to that column's value |
| Records.DimensionNamed | BMW_dataset.py:55-57 | a column name given to a group-by resolves to the dimension of that name, and to nothing exactly when no dimension has that name |
| Records.IndexOf | BMW_dataset.py:13-17 | a column is found at its first occurrence in the header, and is absent exactly when the name is not there |
| KeyOrder.KeyLessIrreflexive | BMW_dataset.py:75 | group keys are sorted by a strict order: no key precedes itself |
| KeyOrder.KeyLessTransitive | BMW_dataset.py:75 | the group-key order is transitive |
| KeyOrder.KeyLessTotal | BMW_dataset.py:75 | any two distinct group keys are ordered one way or the other |
| KeyOrder.YearKeyLess | BMW_dataset.py:154 | per-year keys are ordered exactly as the years are |
| Coercion.ParseUnsigned | BMW_dataset.py:13-17 | an accepted unsigned numeral is non-negative, holds a digit, and consists of digits and a point only |
| Coercion.ParseNumber | BMW_dataset.py:13-17 | a coerced cell is a number only if it holds a digit; any character outside a numeral makes it missing |
| Coercion.ParseShowInt | BMW_dataset.py:13-17 | coercion reads back every integer written in decimal, with or without a minus sign |
| Coercion.ParseDecimal | BMW_dataset.py:13-17 | "whole.fraction" coerces to whole plus fraction over the matching power of ten |
| Coercion.ParseRejectsWords | BMW_dataset.py:13-17 | empty text, a lone sign, a lone point and "n/a" coerce to missing |
| Coercion.ShowNat | BMW_dataset.py:13-17 | the decimal writing of a natural number is non-empty, all digits, and has that number as its value |
| Loading.Locate | BMW_dataset.py:13-17 | the needed columns are all located iff all are in the header, each at its first occurrence; otherwise the first missing one is named |
| Loading.Normalise | BMW_dataset.py:13-17 | a record located by its header becomes a row holding each column's cell, coerced in the five numeric columns |
| Loading.Load | BMW_dataset.py:11-18 | loading succeeds iff every required column is present, else it names the first missing one; on success there is one row per record, categories copied and each numeric column coerced cell by cell |
| Loading.LoadCoercesSales | BMW_dataset.py:15 | a sales cell holding a written integer loads as that number |
| Filtering.KeepMonotone | BMW_dataset.py:33-39 | the mask needs all five values selected: adding values to a selection never drops a row, and a row is dropped as soon as its model, year, region, fuel type or transmission is not selected (a missing year is never selected) |
| Filtering.Filter | BMW_dataset.py:33-39 | the view has only rows of the table the mask keeps, every such row, each as often as in the table, and is no longer than the table |
| Filtering.FilterIsSubsequence | BMW_dataset.py:33-39 | the view keeps the table's row order |
| Filtering.EmptySelectionEmptiesView | BMW_dataset.py:33-39 | an empty selection in any one of the five filters empties the view |
| Filtering.FilterKeepsAll | BMW_dataset.py:33-39 | a mask that keeps every row returns the whole table |
| Filtering.DefaultsOnlyPresentValues | BMW_dataset.py:28-32 | every default selection holds only values that occur in its column |
| Filtering.DefaultsCoverEveryValue | BMW_dataset.py:28-32 | every value of every row is selected by default, including the values of rows without a year |
| Filtering.DefaultsKeepEveryDatedRow | BMW_dataset.py:28-39 | the defaults keep a row exactly when its year is present; the view is every row with a year, and the whole table when no year is missing |
| Filtering.Meet | BMW_dataset.py:33-39 | intersecting two selections keeps a row iff both do |
| Filtering.FilterTwice | BMW_dataset.py:33-39 | filtering a view again equals filtering once by both selections |
| Filtering.FilterIdempotent | BMW_dataset.py:33-39 | filtering a view again by the same selection changes nothing |
| Aggregates.Total | BMW_dataset.py:40-41 | a total of non-negative present values is non-negative (missing cells skipped) |
| Aggregates.TotalIsSumOfPresent | BMW_dataset.py:40-41 | a total is the sum of the present values of the column, missing cells skipped, 0 for an empty view |
| Aggregates.TotalAppend | BMW_dataset.py:40-41 | the total of two concatenated row sequences is the sum of their totals |
| Aggregates.Keyed | BMW_dataset.py:75 | the rows a grouping keeps are exactly the rows with a complete key, no more of them than the view has |
| Aggregates.KeyedCounts | BMW_dataset.py:75 | the rows a grouping keeps, and the rows of one group, each occur exactly as often as in the view |
| Aggregates.KeyedInOrder | BMW_dataset.py:75 | the rows a grouping keeps, and the rows of one group, are in the view's order |
| Aggregates.WithKey | BMW_dataset.py:75 | the rows of one group are exactly the rows with that key |
| Aggregates.KeyedAll | BMW_dataset.py:75 | when every row has a complete key, the grouping keeps every row |
| Aggregates.GroupSums | BMW_dataset.py:110 | the group lines are in strictly ascending key order, their keys are exactly the keys present in the view, and each group's sum is the total of the rows with that key |
| Aggregates.GroupLine | BMW_dataset.py:110 | each group line's key occurs in the view and its sum is the total of that key's rows |
| Aggregates.GroupSumsPartition | BMW_dataset.py:122 | the group sums add up to the total of the rows that have a key |
| Aggregates.GroupSumsEmpty | BMW_dataset.py:131 | the grouping is empty iff no row of the view has a complete key |
| Aggregates.AccumulateKeys | BMW_dataset.py:110 | adding a row to the group lines adds its key to the set of keys and nothing else |
| Aggregates.AccumulateAscending | BMW_dataset.py:110 | adding a row keeps the group lines in ascending key order |
| Aggregates.AccumulateLookup | BMW_dataset.py:110 | adding a row raises its own group's sum by its value and leaves every other group's sum unchanged |
| Aggregates.AccumulateSum | BMW_dataset.py:110 | adding a row raises the sum over all groups by its value |
| Ranking.PlaceKeepsLines | BMW_dataset.py:93 | inserting a line into the ranking keeps every line and the sum over all lines |
| Ranking.PlaceKeepsOrder | BMW_dataset.py:93 | inserting a line into a descending ranking keeps it descending |
| Ranking.RankDescending | BMW_dataset.py:93 | the ranking is a permutation of the group lines with non-increasing sums |
| Ranking.LeaderIndex | BMW_dataset.py:55 | `idxmax`: the position of a largest sum, the first one on ties |
| Ranking.LeaderIsUnique | BMW_dataset.py:55 | the leader rule leaves no choice: two leaders of the same lines are equal |
| Ranking.Leader | BMW_dataset.py:55 | the leader is the key of a largest sum, the first on ties |
| Ranking.Leaders | BMW_dataset.py:54-57 | leaders exist iff the view is non-empty, and each is the leader of summed sales by model, by region and by fuel type |
| Ranking.LeaderOfColumn | BMW_dataset.py:55-57 | a group-by on an unknown column name is a KeyError, `idxmax` over no groups fails, and otherwise the result is the leader of that grouping |
| Ranking.LeadersAsWritten | BMW_dataset.py:54-57 | as written, the leader line is skipped on an empty view and raises a KeyError for "Regiion" on every other |
| Ranking.RegionTypoRaises | BMW_dataset.py:56 | on every non-empty view the line as written fails while the corrected leaders exist, the region leader being the leader of sales by Region |
| Growth.Pct | BMW_dataset.py:155 | the change in percent, times the earlier value, is 100 times the difference |
| Growth.Step | BMW_dataset.py:155 | a year's growth is undefined exactly after a year with sales 0, and otherwise turns the earlier sales into the later |
| Growth.PctInverse | BMW_dataset.py:155 | applying a percentage change to last year's value gives back this year's |
| Growth.PctSign | BMW_dataset.py:155 | from a positive base, the change is positive iff sales rose, and zero iff they stayed level |
| Growth.Changes | BMW_dataset.py:155 | one change per consecutive pair of sums, each the step from the first to the second |
| Growth.PctChange | BMW_dataset.py:155 | one growth entry per year; the first is undefined and each later one is the change from the year before |
| Growth.GrowthRebuildsSales | BMW_dataset.py:155 | a defined growth rate rebuilds a year's sales from the previous year's |
| Growth.GrowthSign | BMW_dataset.py:155 | after a year with positive sales, growth is defined, and positive or zero exactly when sales rose or stayed level |
| Growth.YearKeyShape | BMW_dataset.py:154 | every per-year key is one number, a year present in the view |
| Growth.YearlyGrowth | BMW_dataset.py:154-155 | one bar per year of the per-year grouping with that year's summed sales; the first growth is undefined, each later one the change from the bar before |
| Growth.YearlyGrowthYears | BMW_dataset.py:154 | the bars' years are strictly ascending, each occurs in the view, and each bar's sales are the total of that year's rows |
| Bands.BandOf | BMW_dataset.py:43-49 | the Billion band iff n ≥ 1 000 000 000, the Million band iff 1 000 000 ≤ n < 1 000 000 000, the plain band iff n < 1 000 000 |
| Bands.Mantissa | BMW_dataset.py:44-49 | the scaled number before "Million", before rounding to two decimals, lies in [1, 1000), and the one before "Billion" is at least 1, each scaling back to the total; a plain total is unscaled |
| Bands.BandMonotone | BMW_dataset.py:43-49 | a larger total never gets a smaller band |
| Correlation.CompleteRows | BMW_dataset.py:139 | the heatmap rows are exactly the view's rows with all four metrics present, each as often as in the view |
| Correlation.CompleteRowsInOrder | BMW_dataset.py:139 | the heatmap rows are in the view's order |
| Correlation.HeatmapAvailable | BMW_dataset.py:139-140 | the heatmap is drawn iff some row of the view has all four metrics |
| Dashboard.Run | BMW_dataset.py:33-57 | every figure comes from the one filtered view; the leaders exist iff the view is non-empty; the price ranking is a descending permutation of price by model |
| Dashboard.ViewRowsKeyed | BMW_dataset.py:35 | every row of a filtered view has a complete key under every grouping, because the year filter passes only dated rows |
| Dashboard.GroupingCoversView | BMW_dataset.py:110-131 | every grouping of the view sums to the view's total, and is empty iff the view is |
| Dashboard.YearlySalesIsSum | BMW_dataset.py:154 | the growth bars' sales add up to the per-year grouping's sums |
| Dashboard.ReportTotalsAgree | BMW_dataset.py:40-41 | the region, transmission, colour, (year, model), model and yearly breakdowns all add up to the headline sales total, and the price ranking to the headline price total |
| Dashboard.ReportEmptinessAgrees | BMW_dataset.py:54-61 | every breakdown, the growth bars and the leaders are empty exactly when the view is |
| Dashboard.SampleModelSales | BMW_dataset.py:55 | on a three-row sample, model sales are X3 = 40 then X5 = 20, and X3 leads |
| Dashboard.SampleSelectAll | BMW_dataset.py:28-39 | with every value selected the sample view is the whole sample |
| Dashboard.SampleDropRegion | BMW_dataset.py:33-39 | deselecting region EU leaves exactly the two US rows, in order |
| Dashboard.SampleDropRegionTotal | BMW_dataset.py:40 | those two rows sell 40 in total |
| Dashboard.GrowthScenario | BMW_dataset.py:155 | sales 100 then 150 give growth undefined, then 50% |

## Left out

- The Streamlit page is not modelled: page setup, image, titles, theme radio, tabs, warnings, metrics and footer. It is presentation only.
- The sidebar's display order (`sorted(...)`) is not modelled; a selection is a set, and the order affects only display.
- The Plotly charts are foreign library calls and are not modelled. This includes the choropleth, which reuses the per-region sums of line 110 at line 163.
- Line 80 names the column "Yearr" in the line chart's x axis. As written, drawing that chart would fail. The chart call is not part of this model; the grouping at line 75 is modelled under the column Year.
- Reading the CSV file (line 12) and the `st.cache_data` memoisation are not modelled. The loader starts from a header and records of text cells that are already read.
- Coercion.ParseNumber accepts only an optional sign, digits and one optional point. Exponents, surrounding whitespace and "inf", which `to_numeric` also accepts, are not modelled.
- Loading.Load reads an empty text cell in a category column as "", and keeps the text of cells that `read_csv` turns into NaN by default ("NA", "N/A", "null", "None", "nan", "#N/A" and the like). pandas reads all of these as NaN, and NaN matches no `isin` value that is a string. As written, such a NaN also makes `sorted(...unique())` at lines 28-32 raise a TypeError, since it compares a float with strings, so the page fails before any filtering. The model does not capture that failure.
- Loading.Load checks all ten columns the script reads at once and fails before any row is built. The script itself reads only the five numeric columns at load time (lines 13-17). A missing Model, Region, Fuel_Type or Transmission column raises a KeyError later, at lines 28-32, after the title and sidebar header have rendered; a missing Color column raises only at line 131. The model does not capture that partial rendering or the order of these later failures.
- Filtering.Keep never matches a missing year. pandas `isin` would match NaN when NaN itself were among the selected years. The sidebar offers NaN only when some year failed to coerce.
- The Pearson correlation matrix (line 141) is floating-point numerics inside pandas and is not modelled. Only its input rows and the guard of line 140 are.
- Correlation.HeatmapAvailable follows the code, not a stricter rule that would also need two complete rows and non-zero variance. The code draws the heatmap whenever one complete row exists, even though one row gives an all-NaN matrix.
- Growth.PctChange marks the growth after a year with sales 0 as undefined. pandas gives ±inf there, or NaN for 0 to 0; the model keeps one "undefined" marker for all of these.
- Ranking.RankDescending states no order among lines with equal sums. pandas' default sort is not stable, so the code promises no first-seen order for ties.
- The text rendering of `format_large_number` (two decimals, thousands separators) is float formatting and is not modelled. Only the band and the scaled number are.
- Numbers are exact reals. Float rounding in sums and in percentages is not modelled.
- Exporting the filtered view as CSV (lines 178-184) is a library serialiser plus a download widget and is not modelled.

## Findings

| source | as written | input that shows it | evidently intended | confidence | as-written member | corrected member |
|---|---|---|---|---|---|---|
| BMW_dataset.py:56 | groups the view by the column "Regiion", which the table does not have | any non-empty filtered view, e.g. the three-row sample with every value selected | group by "Region", as lines 110 and 163 do | high; not executed | Ranking.RegionTypoRaises | Ranking.Leaders |
