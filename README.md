# Laptop sales dashboard: data pipeline model

A Dafny model of the data pipeline inside the Streamlit sales dashboard `Frontend/app.py`:

- the table normaliser that derives Month, Quarter and Year from each record's parsed Date;
- the filter engine `filter_data` and the sidebar's default selections;
- the five group-by aggregations the charts draw, including the month view reindexed to
  January…December, and the choice between "no data" and charts;
- the row values the Add and Update forms write back to the sheet.

A table is a `seq<Row>`. The library's missing values (NaT for a date that did not parse, NaN
for the Month, Quarter and Year derived from it) are `Option.None`.

Modules, one per file:

| file | module | models |
|---|---|---|
| wrappers.dfy | Wrappers | `Option` |
| ordering.dfy | Ordering | the key orders used by `groupby` (numeric, code-point lexicographic, tuple) |
| sequences.dfy | Sequences | boolean-mask selection (`Where`), subsequences, sums, `unique()` |
| grouping.dfy | Grouping | `groupby(key)[col].sum()` as a key-sorted list of (key, sum) pairs |
| calendar.dfy | Calendar | dates, month names, quarters, the `YYYY-MM-DD` text and a reader for it |
| table.dfy | Table | raw records, normalised rows, the header list |
| filter.dfy | Filter | selections, `filter_data`, defaults |
| reports.dfy | Reports | total units, the five chart tables, the page outcome, a worked example |
| crud.dfy | Crud | Add-row values, Update form values and merge |

The code's behaviour, as modelled:

- An absent month in the month view is the missing value (NaN), not zero (`Reports.UnitsByMonth`).
- The code never aggregates an empty view: it shows a "no data" message instead (`Reports.Dashboard`).
  `UnitsByMonth` of an empty view is still twelve missing months.
- Update does not check that the row number lies inside the stored data. A row read past the end
  is empty, so the form shows eight empty values and eight values are written (`Crud.UpdateRow`).
- The Month and Year selections hold the options the code offers. These come from `unique()` of
  the derived columns, so they contain the missing value when some date did not parse. The
  library's `isin` matches a missing value against a missing option. The date range removes such
  rows first, so this does not change the filtered view.

## Model

| member | source | states |
|---|---|---|
| Calendar.Quarter | Frontend/app.py:21 | the quarter is in 1..4 and is the one containing the month (3q-2 <= m <= 3q) |
| Calendar.FormatIsoDate | Frontend/app.py:119 | the Add form's date text has length 10 with '-' at positions 4 and 7 |
| Calendar.ParseFormatRoundTrip | Frontend/app.py:119 | the model's own `YYYY-MM-DD` reader `ParseIsoDate` gives back the picked date from the written text (the app's day-first parser is not modelled) |
| Calendar.FormatParseRoundTrip | Frontend/app.py:119 | every text the `YYYY-MM-DD` reader accepts is exactly the rendering of the date it reads |
| Table.ExpectedHeadersFacts | Frontend/app.py:12 | eight distinct headers, Date at position 3 |
| Table.Normalize | Frontend/app.py:19-22 | an undated record gets no Month/Quarter/Year; a dated one gets its month's name, the quarter containing the month and the date's year (the stored Year is replaced); other columns pass through |
| Table.NormalizeTable | Frontend/app.py:19-22 | the column-wise derivation keeps length and order and yields a table whose derived fields agree with the dates |
| Sequences.Where | Frontend/app.py:41 | a boolean-mask selection keeps exactly the values satisfying the mask and never grows |
| Sequences.WhereMultiplicity | Frontend/app.py:41 | a kept value occurs in the selection as often as in the input; a dropped one not at all |
| Sequences.WhereIsSubsequence | Frontend/app.py:41 | a mask selection deletes rows without reordering |
| Sequences.WhereFuse | Frontend/app.py:42-47 | applying two masks in turn equals applying their conjunction once |
| Sequences.Unique | Frontend/app.py:30 | `unique()` lists each value of the column once, loses none, and keeps first-appearance order: a value listed earlier occurs in the column before every occurrence of a value listed later |
| Ordering.StringLessStrictTotal | Frontend/app.py:62 | the code-point order that sorts string group keys is a strict total order |
| Ordering.PairLessStrictTotal | Frontend/app.py:70 | ordering two-column group keys lexicographically is a strict total order |
| Grouping.Insert | Frontend/app.py:62 | adding one row to a group-by result adds its value to its key's sum and to the total, and adds its key |
| Grouping.GroupSum | Frontend/app.py:62 | the group-by result has the keys present in the rows, each key's sum is the sum over its rows, and the entries add up to the total over keyed rows |
| Grouping.GroupSumAscending | Frontend/app.py:62 | group-by entries come out sorted by key |
| Grouping.GroupSumEntries | Frontend/app.py:62 | one entry per present key, holding that key's sum, none for absent keys |
| Filter.FilterData | Frontend/app.py:38-50 | a row is kept iff it is in the table and passes location ("All" or equal), the inclusive date range (undated never kept) and each non-empty selection |
| Filter.FilterDataIsOnePass | Frontend/app.py:38-50 | the five masks applied in turn keep the matching rows with their multiplicity in table order |
| Filter.FilterMultiplicity | Frontend/app.py:38-50 | a matching row occurs in the view as often as in the table; a non-matching one not at all |
| Filter.FilterIsSubsequence | Frontend/app.py:38-50 | the filtered view is an order-preserving subsequence of the table |
| Filter.EmptyMonthSelection | Frontend/app.py:44-45 | an empty month selection keeps the same rows as selecting every month in the table |
| Filter.EmptyQuarterSelection | Frontend/app.py:46-47 | an empty quarter selection keeps the same rows as selecting quarters 1..4 |
| Filter.EmptyYearSelection | Frontend/app.py:48-49 | an empty year selection keeps the same rows as selecting every year in the table |
| Filter.MinDate | Frontend/app.py:28 | the start default is a date of the table no later than any other; absent only when no date parsed |
| Filter.MaxDate | Frontend/app.py:29 | the end default is a date of the table no earlier than any other; absent only when no date parsed |
| Filter.DefaultCriteria | Frontend/app.py:26-35 | defaults exist iff some date parsed; they select "All" locations, the table's earliest and latest dates, exactly the months and years seen in the table, and quarters 1..4 |
| Filter.DefaultsKeepDatedRows | Frontend/app.py:26-50 | with the default selections the filter keeps exactly the dated rows, in order |
| Reports.UnitsBySalesRepSpec | Frontend/app.py:57-62 | one sorted entry per SalesRepID with the Units of its rows; the entries add up to total_units |
| Reports.RevenueByYearProductSpec | Frontend/app.py:67-75 | one entry per (Year, ProductID), sorted, holding its RevenueDiscount; rows without a year are dropped |
| Reports.RevenueByProductRepSpec | Frontend/app.py:83 | one sorted entry per (ProductID, SalesRepID) with its RevenueDiscount; the entries add up to the view's revenue |
| Reports.UnitsByQuarterSpec | Frontend/app.py:96 | quarters in numeric order with their Units, keys within 1..4, adding up to total_units on a dated view |
| Reports.UnitsByMonth | Frontend/app.py:89-91 | the month view has exactly twelve entries labelled January…December in calendar order |
| Reports.UnitsByMonthSpec | Frontend/app.py:89-91 | a month's entry holds its rows' Units when there are some and is missing otherwise |
| Reports.MonthKeysAreMonthNames | Frontend/app.py:89-91 | on a normalised view every grouped month is one of the twelve labels, so the reindex loses nothing |
| Reports.Dashboard | Frontend/app.py:56-101 | "no data" exactly when the filtered view is empty; otherwise the total and all five chart tables are computed from the filtered view, the pie entries add up to the total, the month view has twelve entries, and the year/product and quarter views account for the whole view |
| Reports.ScenarioLocationA | Frontend/app.py:40-41 | three rows at A, B, A: location A keeps the first and third, 17 units |
| Reports.ScenarioQuarterOne | Frontend/app.py:46-47 | quarter 1 keeps all three rows and the page shows charts |
| Reports.ScenarioEmptyRange | Frontend/app.py:42-43 | a date range ending before the first sale leaves no data |
| Crud.BuildAddRow | Frontend/app.py:116-123 | eight values in header order, the Date one the `YYYY-MM-DD` text of the picked date (which reads back as that date), the others what was typed for their header |
| Crud.CollectUpdateForm | Frontend/app.py:133-136 | each form value is the user's edit, else the stored value, else "" past the end of the stored row |
| Crud.MergeUpdate | Frontend/app.py:137-142 | the merged row has length max(stored length, 8), its first eight values are the form's and the rest are the stored ones |
| Crud.UpdateRow | Frontend/app.py:128-143 | edited fields take the edit, untouched ones keep the stored value or "", values past the eighth stay, and an untouched form writes the stored row back padded with "" |

## Left out

- Sheet I/O: `get_all_records`, `append_row`, `row_values`, `update` and `delete_rows` are network calls of the spreadsheet client. The model starts from the records read and ends at the row values to write. A failed load (unreachable store, header mismatch) and its error message are not modelled.
- Delete Row: the code only passes the row number (at least 2) to the store, so nothing is left to model. The same lower bound is the precondition of `Crud.UpdateRow`.
- Date parsing: the library's day-first, coercing parser is not modelled. A record carries its parsed date or None. Dates are compared at day granularity, so a parsed time of day is not represented. The model admits years 1..9999 (the date widget's range), wider than the timestamp range the parser can produce.
- Floating point: RevenueDiscount and PercentOfStandardCost are integers here. The year/product chart also sums every other numeric column and then drops Year and ProductID columns; only the charted RevenueDiscount sum is modelled.
- Column types: ProductID, SalesRepID and Location are strings. The sheet may deliver numbers for them, and the model does not cover sorting mixed types.
- Calendar.FormatIsoDate: always writes four year digits. The platform's `strftime('%Y')` may write fewer below year 1000, which the date widget's default range never reaches.
- The location option list (`["All"]` plus each distinct location) is not modelled, except that "All" is the default. A location literally named "All" cannot be selected on its own; the code has this behaviour too.
- Rendering: widgets, messages, chart drawing, `experimental_set_query_params` and Show Dataset are presentation with no logic to state.
- The Update write range `A{n}:H{n}` and what the store does with a row longer than eight values are store behaviour.
