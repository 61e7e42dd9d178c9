# Geospatial sales dashboard: the filter, aggregate and rank pipeline

The Streamlit script `Geospatial.py` owns one piece of logic. It loads sales rows and geocodes
them by joining with a world-cities table on (City, Country). It then keeps the rows whose
order date lies in the chosen inclusive range and, when any country is selected, whose
country is selected. From the filtered rows it computes:

- the total sales and the transaction count;
- one heat-map point (latitude, longitude, sales) per row;
- the ten individual records with the largest sales (`nlargest(10, 'Sales')`).

The sidebar offers the sorted distinct countries and pre-selects the first five. The date
widgets start at the earliest and the latest order date.

This project models that pipeline as pure Dafny functions over sequences of records and proves
what each step promises. The modules follow the steps:

- `Records`: the row types.
- `Seqs`: boolean-mask selection (`Filter`) and prefixes.
- `Geocoding`: `load_data`, meaning the left merge, then `dropna`, proved equal to an inner join.
- `Countries`: `sorted(unique())` under Python's string order, and the default selection.
- `Filters`: the default date range and the date and country filters.
- `Metrics`: the metric figures, the map centre and the heat points.
- `Ranking`: `nlargest` as a stable descending sort followed by taking a prefix.
- `Dashboard`: the steps composed, with end-to-end lemmas.

Dates are day numbers (`int`). Sales and coordinates are exact `real`s. A missing coordinate in
the city table is `None`.

The top-ten step ranks individual records, not cities. Two records from the same city can both
appear, even though the page's heading (Geospatial.py:130) says "Top 10 High-Sales Cities".
No sales are summed per city. The model follows the code, not the heading.

## Model

| member | source | states |
|---|---|---|
| `Seqs.Filter` | Geospatial.py:96-98 | boolean-mask selection: a value is in the result exactly when it is in the input and the mask accepts it; never longer than the input |
| `Seqs.FilterConcat` | Geospatial.py:96-98 | selection distributes over concatenation, so it keeps input order |
| `Seqs.FilterMultiset` | Geospatial.py:96-98 | selection keeps every copy of an accepted value and no copy of a rejected one |
| `Seqs.FilterConsKept` | Geospatial.py:96-98 | a row the mask accepts stays at the head of the selection |
| `Seqs.FilterConsDropped` | Geospatial.py:96-98 | a row the mask rejects leaves no trace in the selection |
| `Seqs.Take` | Geospatial.py:93 | `s[:n]` has min(n, length) elements and is a prefix of `s`; used for the default countries and for the top rows |
| `Geocoding.Matches` | Geospatial.py:79 | the city rows a sales row merges with are exactly those with equal City and Country |
| `Geocoding.MergeRow` | Geospatial.py:79 | a left merge gives each sales row at least one merged row, and all of them carry that sales row |
| `Geocoding.LeftMerge` | Geospatial.py:79 | the left merge never has fewer rows than the sales table, and every merged row comes from a sales row |
| `Geocoding.UsableMatches` | Geospatial.py:79-80 | the city rows that survive for a sales row are exactly those with the same key and both coordinates present |
| `Geocoding.DropAttached` | Geospatial.py:79-80 | dropping rows with a missing coordinate from one sales row's matches leaves one joined record per located match, in city-table order |
| `Geocoding.MergeRowDropped` | Geospatial.py:79-80 | after `dropna`, an unmatched sales row leaves nothing, and a matched one leaves its inner-join records |
| `Geocoding.DropMissing` | Geospatial.py:80 | `dropna` never adds rows; `Geocoding.DropMissingOne` and `Geocoding.DropMissingConcat` fix its result row by row |
| `Geocoding.DropMissingOne` | Geospatial.py:80 | one merged row is kept, as its record, exactly when both its coordinates are present |
| `Geocoding.DropMissingConcat` | Geospatial.py:80 | `dropna` works row by row: on a concatenation it is the concatenation of the two results, so order is kept |
| `Geocoding.DropMissingKeeps` | Geospatial.py:80 | every merged row with both coordinates is kept |
| `Geocoding.DropMissingOnlyLocated` | Geospatial.py:80 | every kept record comes from a merged row with both coordinates |
| `Geocoding.LoadData` | Geospatial.py:73-82 | the loaded data equals the independently written inner join on (City, Country) over located city rows (proved by `Geocoding.LoadDataIsInnerJoin`) |
| `Geocoding.LoadDataIsInnerJoin` | Geospatial.py:73-82 | left merge followed by `dropna` equals the inner join written independently: one record per (sales row, located matching city row) pair, in sales-row order |
| `Geocoding.LoadDataConcat` | Geospatial.py:79-80 | loading keeps sales-row order: records from earlier sales rows come first |
| `Geocoding.LoadOneRow` | Geospatial.py:79-80 | a sales row with k located matches yields exactly k records, the i-th with the i-th match's coordinates; an unmatched sales row yields none |
| `Geocoding.LoadedRowsAreMatched` | Geospatial.py:79-80 | every loaded record is the join of some sales row and some city row with the same key and both coordinates present |
| `Geocoding.LoadedRowsAreComplete` | Geospatial.py:79-80 | conversely, every pair of a sales row and a located city row with the same City and Country is loaded |
| `Geocoding.InnerJoinComplete` | Geospatial.py:79-80 | the reference inner join holds every same-key pair of a sales row and a located city row |
| `Countries.LexLess` | Geospatial.py:92 | Python's code-point string order; a strict total order by `Countries.LexLessIrreflexive`, `Countries.LexLessTransitive` and `Countries.LexLessTotal` |
| `Countries.LexLessIrreflexive` | Geospatial.py:92 | no string is below itself |
| `Countries.LexLessTransitive` | Geospatial.py:92 | the string order `sorted` uses is transitive |
| `Countries.LexLessTotal` | Geospatial.py:92 | the string order is total: distinct strings are comparable |
| `Countries.Unique` | Geospatial.py:92 | `unique()` has no duplicates and holds exactly the values of its input |
| `Countries.SortStrings` | Geospatial.py:92 | `sorted` returns a permutation of its input |
| `Countries.SortStringsSorted` | Geospatial.py:92 | `sorted` returns a non-decreasing list |
| `Countries.AllCountries` | Geospatial.py:92 | the country list is strictly ascending and holds exactly the countries that occur in the data |
| `Countries.AllCountriesSpec` | Geospatial.py:92 | sorting the distinct values of the Country column gives a strictly ascending list of exactly the data's countries |
| `Countries.DefaultCountries` | Geospatial.py:93 | the defaults are the first min(5, n) of the n ascending countries, strictly ascending; every country left out comes after each default |
| `Countries.DefaultCountriesSpec` | Geospatial.py:93 | the first five of a strictly ascending list are strictly ascending and come before every string left out |
| `Filters.DefaultDateRange` | Geospatial.py:90-91 | the default dates are the smallest and largest order dates, both attained and bounding every row; there is no range for empty data (Python's `min` raises) |
| `Filters.DateFilter` | Geospatial.py:96 | a row is kept exactly when it is in the data and start <= OrderDate <= end, both ends included |
| `Filters.CountryFilter` | Geospatial.py:98 | a row is kept exactly when it is in the input and its Country is in the selection |
| `Filters.ApplyFilters` | Geospatial.py:96-98 | soundness: every kept row is in the date range and, for a non-empty selection, in a selected country; completeness: every qualifying row is kept |
| `Filters.ApplyFiltersIsOneMask` | Geospatial.py:96-98 | the two-step filter equals a single selection with the conjunctive mask |
| `Filters.FilterOrder` | Geospatial.py:96-98 | filtering distributes over concatenation, so relative order is preserved |
| `Filters.FilterOne` | Geospatial.py:96-98 | a single row is kept exactly when it qualifies; with `FilterOrder` this fixes the result for every input |
| `Filters.FilterCounts` | Geospatial.py:96-98 | each qualifying row is kept as many times as it occurs; no other row is kept |
| `Filters.EmptySelectionIsDateOnly` | Geospatial.py:97-98 | with an empty selection the result is the date-filtered rows |
| `Filters.NoOpFilter` | Geospatial.py:96-98 | when every date is in range and no country is selected, the data comes back unchanged |
| `Metrics.ColumnSum` | Geospatial.py:103 | the sum of a column is 0 for no rows |
| `Metrics.ColumnSumConcat` | Geospatial.py:103 | the sum of a column over a concatenation is the sum of the two sums |
| `Metrics.ColumnSumNonNegative` | Geospatial.py:103 | a column that is never negative has a non-negative sum |
| `Metrics.ColumnSumMonotone` | Geospatial.py:103 | a column that is nowhere larger than another has no larger sum |
| `Metrics.ConstantSum` | Geospatial.py:108 | a column holding c on each of n rows sums to n * c |
| `Metrics.TotalSales` | Geospatial.py:103 | total sales is 0 for no rows and non-negative when every sale is |
| `Metrics.TotalSalesConcat` | Geospatial.py:103 | the total of a concatenation is the sum of the totals, so the total is the sum over the rows |
| `Metrics.TotalSalesOne` | Geospatial.py:103 | one row's total is its sale |
| `Metrics.ComputeMetrics` | Geospatial.py:103-104 | the total sales figure is the sum of the rows' sales, the transaction count is the row count, and both are 0 for no rows |
| `Metrics.MetricsConcat` | Geospatial.py:103-104 | both figures add up over a concatenation |
| `Metrics.MeanWithin` | Geospatial.py:108 | the mean of a column lies between its least and its largest value |
| `Metrics.MapCentre` | Geospatial.py:108 | there is a map centre exactly when there are rows (pandas' mean of no rows is NaN) |
| `Metrics.MapCentreWithin` | Geospatial.py:108 | the centre lies in every latitude/longitude box that holds all the rows |
| `Metrics.HeatPoints` | Geospatial.py:112 | one heat point per row, the i-th being (Latitude, Longitude, Sales) of the i-th row |
| `Metrics.HeatWeightsSumToTotal` | Geospatial.py:112 | the heat weights sum to the total sales: nothing is aggregated or lost |
| `Ranking.InsertBySales` | Geospatial.py:116 | insertion adds exactly one copy of the record |
| `Ranking.SortBySales` | Geospatial.py:116 | the sort is a permutation of its input with the same length |
| `Ranking.SortDescending` | Geospatial.py:116 | the sort is non-increasing by Sales |
| `Ranking.InsertStable` | Geospatial.py:116 | an inserted record goes ahead of every record it ties with and leaves the others in their order |
| `Ranking.SortStable` | Geospatial.py:116 | for every Sales value, the records with that value keep their input order in the sort |
| `Ranking.Top` | Geospatial.py:116 | `nlargest(n)` has min(n, number of rows) records; its order, content and ties are given by `Ranking.TopSpec`, `Ranking.TopLeftOut` and `Ranking.TopTiesFavourEarlier` |
| `Ranking.TopSpec` | Geospatial.py:116 | the top n has length min(n, number of rows), is a sub-multiset of the rows, and is non-increasing by Sales |
| `Ranking.TopLeftOut` | Geospatial.py:116 | every record left out sells no more than the last one shown |
| `Ranking.TopTiesFavourEarlier` | Geospatial.py:116 | among records of any one Sales value, those in the top n are the earliest of the input (`keep='first'`) |
| `Ranking.TopCities` | Geospatial.py:116 | the table has min(10, number of rows) rows, the i-th being City, Country, Latitude, Longitude and Sales of the i-th top record |
| `Dashboard.Render` | Geospatial.py:96-116 | the page for the widget values: filtered rows, metrics, map centre, heat points and top table, all from the same filtered rows; its properties are `Dashboard.RenderConsistent`, `Dashboard.RenderCentreWithin` and `Dashboard.EmptyResult` |
| `Dashboard.Run` | Geospatial.py:73-116 | the whole script as written: it stops at the default dates (`min` of an empty column raises) exactly when the inner join is empty; otherwise it stops after zero metrics exactly when no joined row qualifies, and else shows the intended page |
| `Dashboard.IntendedRun` | Geospatial.py:73-116 | the evidently intended script: the page always shows the filtered rows of the inner join, with a map centre exactly when there is one |
| `Dashboard.RunInvertedRange` | Geospatial.py:73-109 | with a start date after the end date, the script as written stops after zero metrics when the join is non-empty and at the default dates when it is empty; the intended script shows the empty page |
| `Dashboard.UnmatchedFilesStopAtDates` | Geospatial.py:73-90 | two files with no located same-key match load nothing, so the script as written stops at the default dates |
| `Dashboard.RenderConsistent` | Geospatial.py:96-116 | heat-point count = transaction count = filtered row count; a map centre exactly when a row is shown; heat weights sum to total sales; at most ten top rows |
| `Dashboard.RenderCentreWithin` | Geospatial.py:96-108 | when some row qualifies, the map centre lies in every box that holds all the data's coordinates |
| `Dashboard.EmptyResult` | Geospatial.py:96-116 | the evidently intended page when no row qualifies: zero metrics, no centre, no heat points and an empty table |
| `Dashboard.ScriptAsWritten` | Geospatial.py:100-116 | once the widgets have values, the script as written stops after the metrics exactly when no row qualifies, with both metrics 0; otherwise it shows the full page |
| `Dashboard.EmptyFilterStopsScript` | Geospatial.py:100-109 | when no row qualifies, the script as written shows zero metrics and then stops |
| `Dashboard.InvertedRangeStopsScript` | Geospatial.py:96-109 | a start date after the end date stops the script as written, whatever the data |
| `Dashboard.DefaultDatesKeepAll` | Geospatial.py:90-98 | with the default dates and no country selected, every loaded row is shown |
| `Dashboard.DefaultView` | Geospatial.py:90-98 | with the default dates and the default countries, the rows shown are exactly those of the first five countries, in input order |
| `Dashboard.ParisLyonExample` | Geospatial.py:96-116 | two French rows with France selected are both kept, and the top one is the larger Paris sale |

## Left out

- Page setup, CSS, markdown, the map, the heat layer, the markers and `st_folium`/`st.dataframe` rendering (Geospatial.py:9-67, 109-131): UI and foreign rendering libraries.
- `@st.cache_data` (Geospatial.py:70): framework caching that does not change the result.
- Reading the two CSV files and parsing dates (Geospatial.py:74-75): file I/O. The model starts from parsed rows. It keeps only the sales columns the pipeline reads, and no other columns are carried through the merge.
- The column renaming of the city table (Geospatial.py:78): schema plumbing, so `CityRow` already uses the merged names.
- The sidebar widgets (Geospatial.py:89-93): start date, end date and selected countries are plain inputs. Only their default values are modelled, by `DefaultDateRange` and `DefaultCountries`.
- The map object and its zoom (Geospatial.py:109): foreign rendering. Only its centre is modelled (`Metrics.MapCentre`), as an exact mean with no centre for no rows.
- Dashboard.EmptyResult: on a filter that keeps no row, the script as written does not reach this page. The centre at Geospatial.py:108 is NaN, `folium.Map` at line 109 rejects it, and lines 112-116 never run. The lemma describes the model's functions evaluated on their own, which is the evidently intended page; `Dashboard.ScriptAsWritten` models the stop (see Findings).
- The currency and thousands formatting of the metrics and popups (Geospatial.py:103-104, 120): presentation only.
- Floating point: sales and coordinates are exact reals, so the order of summation and rounding in `.sum()` are not modelled.
- NaN or missing values in the sales table's City, Country, Sales or Order Date columns: `SalesRow` has no missing fields. Only the city table's coordinates may be missing.
- Order dates with a time of day: dates are whole day numbers. With timestamps, `<= end_date` (midnight of the end day) would drop later times on the end day.
- Ranking.SortBySales: when there are at most ten rows, pandas' `nlargest` sorts with a non-stable `sort_values`, so the order among equal sales is not guaranteed there. The model always uses the stable order (earlier rows first), which is `keep='first'` on the partial-selection path. The set of rows shown is the same in both cases.
- Ranking.Top: when n is at least the number of rows, the order among equal sales is the model's stable order, which pandas does not guarantee there (see `Ranking.SortBySales`); the records shown are the same.
- Ranking.TopTiesFavourEarlier: the input-order prefix it states for each Sales value holds for pandas only when n is below the number of rows; otherwise every row is shown and only the order among ties may differ (see `Ranking.SortBySales`).
- Countries.Unique: first-appearance order is built into the definition but not stated as a contract, because the result is sorted straight away.

## Findings

| source | as written | input that shows it | evidently intended | confidence | as-written member | corrected member |
|---|---|---|---|---|---|---|
| Geospatial.py:108-109 | the map centre is the mean of the filtered coordinates and goes straight to `folium.Map`; with no filtered row the mean is NaN, `folium.Map` rejects a NaN location, and the heat map, markers and table (lines 112-131) are never shown | two files with a non-empty join, and a start date after the end date or a country selection that matches no row in the date range | the page shows zero metrics and an empty map and table | not executed; relies on folium's check that a location has no NaN | `Dashboard.ScriptAsWritten` and `Dashboard.Run` with `Dashboard.InvertedRangeStopsScript` and `Dashboard.RunInvertedRange` | `Dashboard.Render` and `Dashboard.IntendedRun` with `Dashboard.EmptyResult` |
