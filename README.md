# Amazon delivery dashboard: the row and record logic

This project models the part of the Amazon delivery analytics dashboard that
is not rendering: the logic that decides which delivery records feed a view,
how they are counted, and how the prediction form becomes the feature row
given to the trained model. The dashboard is a Streamlit script,
`Analytics/dashboard.py`. Each piece is modelled as pure functions over a
sequence of delivery records, with lemmas about them:

- **Sidebar filter** (`Sidebar`, `sidebar.dfy`). Two multiselects and a range slider
  build one mask: the area is selected, the vehicle is selected, and the
  delivery time is within the range. The widgets' defaults are every distinct
  area, every distinct vehicle and the full time range.
- **Map selection** (`MapView`, `map_view.dfy`). The area picker offers
  "All Areas" followed by the distinct areas. The sentinel keeps every row;
  any other entry keeps the rows of that area. At most 1000 rows are sampled.
- **Counts** (`Counts`, `counts.dfy`). `value_counts()` gives each distinct value
  with its number of rows, most frequent first. `head()` keeps the first five
  entries. `groupby(...).agg({'Order_ID': 'count'})` gives the number of
  orders per group.
- **Prediction input** (`Prediction`, `prediction.dfy`). The form gives
  thirteen fields. `get_dummies` keeps the seven numeric ones and turns each
  text field `F` with value `v` into an indicator column `F_v`. `reindex` then
  lines the columns up with the model's feature list. Missing features become
  0 and extra columns are dropped.
- `Rows` (`rows.dfy`) holds the sequence operations these share. `Where` is
  mask selection `df[mask]`. The others are `unique()`, occurrence counting and
  `head(n)`. `Records` (`records.dfy`) holds the record type.

Which rows each view reads:

- The map (`Analytics/dashboard.py:301`) and the area and vehicle counts
  (lines 240 and 282) read `data`, the whole table.
- The weather and traffic group counts (lines 383-386 and 410-414) read
  `map_data`, the rows of the area chosen in the map picker. They run only
  when `map_data` has rows (line 375). `Counts.GroupCounts` takes whichever
  rows it is given, so these counts are `GroupCounts(MapData(data, choice), c)`.
- No line after 188 reads `filtered_df`, so the sidebar filter changes no
  view. The model keeps the filter as the code computes it.
- On a table without rows, the slider defaults call `int(...)` on the NaN
  minimum and maximum, which raises. `Sidebar.DefaultSelection` is `None`
  there. The map selection and the counts work on empty tables without error.

Assumptions:

- The indicator column for value `v` of field `F` is named `F_v`. This is the
  default column naming of `pandas.get_dummies` (separator `_`).
- `get_dummies` places the numeric columns first and then one indicator per
  text column. Each indicator is `True`, modelled as `Cell.One` (the value 1).
- `reindex` raises when the source labels repeat. `Prediction.Reindex` returns
  `None` in that case, and `Prediction.EncodedNamesDistinct` proves that the 13
  labels built from any form never repeat.
- `Delivery_Time` is an integer number of minutes, so `int(...)` of its
  minimum and maximum is the minimum and maximum themselves.
- Order identifiers are never missing, so an `Order_ID` count per group is
  the group's number of rows.

## Model

| member | source | states |
|---|---|---|
| `Rows.Where` | Analytics/dashboard.py:183-188 | Mask selection keeps exactly the elements that satisfy the mask and never adds any: a value is in the result if and only if it is in the input and passes. |
| `Rows.WhereIsSubsequence` | Analytics/dashboard.py:183-188 | Mask selection keeps the surviving rows in their original order: the result is a subsequence of the input. |
| `Rows.WhereOccurrences` | Analytics/dashboard.py:183-188 | Mask selection keeps every copy of a passing row and no copy of a failing one. |
| `Rows.WhereIdempotent` | Analytics/dashboard.py:183-188 | Applying the same mask twice gives the same rows as applying it once. |
| `Rows.WhereAll` | Analytics/dashboard.py:183-188 | When every row passes, mask selection returns the input unchanged. |
| `Rows.Unique` | Analytics/dashboard.py:162 | `unique()` has no repeated value and contains exactly the values of the column. |
| `Rows.Occurrences` | Analytics/dashboard.py:240 | A value's count is at most the number of rows, and it is positive exactly when the value occurs. |
| `Rows.Head` | Analytics/dashboard.py:248 | `head(n)` keeps the first `n` entries, or all of them when there are fewer: the result has `min(n, len)` entries and is a prefix of the input. |
| `Records.ColumnOf` | Analytics/dashboard.py:162 | Reading one column, as `data['Area']` does here and at lines 240, 282 and 299, gives one value per row, in row order. A value occurs in the column exactly when some row carries it in that field. |
| `Sidebar.Filter` | Analytics/dashboard.py:183-188 | A row is in `filtered_df` if and only if it is in the data, its area is selected, its vehicle is selected and `min_time <= Delivery_Time <= max_time`. The result is never longer than the data. |
| `Sidebar.FilterIsSubsequence` | Analytics/dashboard.py:183-188 | The filtered rows are an order-preserving subsequence of the data. |
| `Sidebar.FilterKeepsMultiplicity` | Analytics/dashboard.py:183-188 | A row that passes the mask appears in `filtered_df` as often as it appears in the data. A row that fails does not appear. |
| `Sidebar.FilterIdempotent` | Analytics/dashboard.py:183-188 | Filtering the filtered rows again with the same selection changes nothing. |
| `Sidebar.ThreeRowScenario` | Analytics/dashboard.py:183-188 | Three rows with areas A, A, B, filtered to area A, give exactly the two A rows, in order. |
| `Sidebar.MinTime` | Analytics/dashboard.py:177 | The slider's lower bound is at most every row's delivery time and equals some row's delivery time. |
| `Sidebar.MaxTime` | Analytics/dashboard.py:178 | The slider's upper bound is at least every row's delivery time and equals some row's delivery time. |
| `Sidebar.DefaultSelection` | Analytics/dashboard.py:160-180 | There is no default exactly when the table has no rows, because the slider's `int(...)` of the NaN minimum and maximum raises. |
| `Sidebar.DefaultSelectionCoversData` | Analytics/dashboard.py:160-180 | On a table with rows, the default areas and vehicles are exactly those occurring in the data. The default range covers every row's delivery time, and both of its ends are attained. |
| `Sidebar.DefaultKeepsAll` | Analytics/dashboard.py:160-188 | With the default selection the filter returns every row of the data, in order. |
| `MapView.AreaChoices` | Analytics/dashboard.py:299 | The picker starts with "All Areas". The entries after it are distinct, and they are exactly the areas that occur in the data. |
| `MapView.MapData` | Analytics/dashboard.py:301-303 | "All Areas" gives the whole table. Any other choice gives exactly the rows with that area. |
| `MapView.MapDataIsSubsequence` | Analytics/dashboard.py:301-303 | Whatever the choice, the selected rows are an order-preserving subsequence of the data. |
| `MapView.MapDataMultiplicity` | Analytics/dashboard.py:301-303 | A row of the chosen area, or any row for "All Areas", appears as often as in the data. Any other row does not appear. |
| `MapView.ChoicesSelectRows` | Analytics/dashboard.py:299-303 | On a table with rows, every entry the picker offers selects at least one row. |
| `MapView.SampleSize` | Analytics/dashboard.py:306 | The sample size is `min(1000, len(map_data))`: at most 1000, at most the number of rows, and equal to the number of rows when there are at most 1000. |
| `MapView.SampleExists` | Analytics/dashboard.py:306 | A draw of that size without replacement always exists, so sampling cannot fail. |
| `MapView.SampleEmptyIff` | Analytics/dashboard.py:306-308 | The sample is empty exactly when the selected rows are empty, so the map is drawn exactly when the selection has rows. |
| `MapView.IsSampleOf` | Analytics/dashboard.py:306 | A sample is `min(1000, len(map_data))` rows drawn without replacement, so every sampled row is a row of `map_data`. |
| `Counts.SortByCount` | Analytics/dashboard.py:240 | The value counts come out in non-increasing order of count and are a permutation of the unsorted table. |
| `Counts.ValueCounts` | Analytics/dashboard.py:240 | `value_counts()` lists each occurring value once. Every value of the column is listed, and each entry's count is the number of rows with that value, which is positive. Counts are non-increasing and add up to the number of rows. |
| `Counts.TallyOfUniqueCoversRows` | Analytics/dashboard.py:240 | The per-value counts of the distinct values add up to the number of rows. |
| `Counts.CountsCoverEveryRow` | Analytics/dashboard.py:282 | For any counted column, including the vehicle distribution, the counts add up to the number of rows. |
| `Counts.AreaCounts` | Analytics/dashboard.py:240 | `data['Area'].value_counts()` lists every row's area once, each with its positive number of rows. The entries come most frequent first and add up to the number of rows. |
| `Counts.TopAreas` | Analytics/dashboard.py:248 | "Top areas" has at most 5 entries and is a prefix of the area value counts. It has 5 entries unless there are fewer distinct areas, and then it has all of them. |
| `Counts.TopAreasAreMostFrequent` | Analytics/dashboard.py:248 | No area missing from "top areas" has more rows than an area shown in it. |
| `Counts.GroupCounts` | Analytics/dashboard.py:383-386 | The grouped order count has a key for exactly the values that occur, and each key's count is that value's number of rows, which is positive. |
| `Counts.GroupCountsAgree` | Analytics/dashboard.py:383-386 | The grouped counts and the value counts of the same column agree entry by entry. So the grouped counts also add up to the number of rows. |
| `Prediction.InputRow` | Analytics/dashboard.py:479-493 | The input frame has thirteen columns, one per form field. |
| `Prediction.GetDummies` | Analytics/dashboard.py:496 | Encoding makes one column for each input column. |
| `Prediction.DummyNameParts` | Analytics/dashboard.py:496 | An indicator label `F_v` splits back into the field `F`, the separator `_` and the value `v`. So within one field, different values get different labels. |
| `Prediction.EncodedColumns` | Analytics/dashboard.py:479-496 | The encoded row holds the seven numbers under their own names, in form order. Then it holds one `F_v` indicator set to 1 for each text field `F` with value `v`. |
| `Prediction.EncodedNamesDistinct` | Analytics/dashboard.py:496-497 | For every possible form, the encoded column labels are pairwise distinct, so reindexing never raises. |
| `Prediction.Lookup` | Analytics/dashboard.py:497 | A label that was not produced reads as 0. When the labels are distinct, a produced label reads as that column's cell. |
| `Prediction.Reindex` | Analytics/dashboard.py:497 | Reindexing fails exactly when the source labels repeat. Otherwise it yields one column per feature, in feature order, named by the feature. Each column carries the produced column of that name, or 0 when there is none. |
| `Prediction.LookupIsExpected` | Analytics/dashboard.py:479-497 | Reading any label from the encoded row gives the number entered for a numeric field, 1 for the indicator of a chosen category, and 0 for any other label. |
| `Prediction.EncodeInput` | Analytics/dashboard.py:479-497 | For any form and feature list, encoding succeeds. The row has exactly the model's features as columns, in order. Each column holds what the form says it should: the entered number, 1 for a chosen category's indicator, 0 otherwise. |

## Left out

- Loading the CSV, the fallback to an empty frame when it is missing, and reading the pre-rendered map document (lines 138-146, 369-372): file I/O. After a failed load the frame has no columns, so line 162 raises a `KeyError`. Every modelled record has all its columns, so that path is not modelled.
- All Streamlit widgets, layout, CSS, tabs and metrics, and every Plotly, Folium and HeatMap call (lines 16-135, 152-372, 389-423): rendering libraries. This includes the `heat_data` list built at lines 315-318, which only feeds the heat map.
- `joblib.load` and `model.predict` (lines 432-435, 500): an opaque trained model. The model's `feature_names_in_` is the `features` parameter of `Prediction.EncodeInput`.
- Which rows `sample()` draws (line 306): an unseeded random draw. `MapView.IsSampleOf` only constrains the size and requires drawing without replacement.
- Every mean: the average delivery time, the map centre, the weather and traffic means with `.round(2)`, and the sort by mean that picks the slowest and fastest weather (lines 223, 309-310, 364, 383-414). These are floating-point numerics.
- Parsing `Order_Time` and the `mode()` of times and of areas (lines 228-234): library date handling and ties broken by sorting values. `mode()[0]` on an empty column raises, and the code does not guard against it.
- `Counts.GroupCounts`: a map, so it does not model that `groupby` returns its groups sorted by key. Only the order of the bars depends on that.
- `Rows.Unique`: does not state that `unique()` lists values in order of first appearance. Only the order of the picker's options depends on it.
- `Counts.ValueCounts`: does not fix the order of values with equal counts. pandas does not promise one, and the model's stable sort is one of the allowed orders.
- `Prediction.Reindex`: pandas skips the duplicate-label error when the target labels equal the source labels exactly. That is not modelled, because the encoded labels are proved distinct.
- Numbers on the prediction form are an abstract type `N`, because encoding only carries them through. The form's `min`/`max` bounds are UI constraints and are not modelled.
- Missing values (NaN) are not modelled: every record's text fields are present strings and every delivery time is an integer. pandas drops NaN keys from the counts. `isin` matches a NaN cell to a NaN in the selection, and `unique()` lists NaN, so the default area and vehicle selection would keep such rows. `==` at line 303 and the time comparisons at lines 186-187 never match NaN.
- Records carry only the columns the modelled logic reads. The order id, area, vehicle, weather, traffic and delivery time are kept. Coordinates, agent age and rating, distance and category are not.
