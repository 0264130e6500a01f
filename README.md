# Prolongation retention coefficients

A model of the batch script `main.py`. The script computes the monthly and
annual retention coefficients of a sales department's account managers (AM).
Its inputs are two tables:

- the completion table: project id, completion month name, AM or none;
- the financial table: project id and one shipment cell per calendar month
  from November 2022 to December 2023.

The script proceeds in these steps:

1. It cleans every shipment cell. Whitespace is removed, a decimal comma
   becomes a point, 'стоп' and 'end' become the stop marker -1, and anything
   that does not parse becomes 0.
2. It sums the financial rows of each raw id and then strips the ids.
3. It left-joins the completion rows onto the result.
4. It drops every project that carries -1 in some month up to and including
   its completion month.
5. It melts the table into one observation per project and month.

For each month of 2023 the script then computes two coefficients, per AM and
for the whole department:

- **K1** is the share of last month's shipments of the projects completed
  last month that shipped again this month.
- **K2** is the same share for the projects completed two months back, but
  without those already prolonged last month.

At the same time it collects one detail row per base project. From those
detail rows it builds the annual report. Finally it sorts the monthly
summary and orders the pivot's month columns.

The Dafny modules follow the stages:

| file | module | stage |
|---|---|---|
| `wrappers.dfy` | `Wrappers` | `Option` |
| `tables.dfy` | `Tables` | order-preserving row selection (`df[mask]`) |
| `text.dfy` | `Text` | `re.sub(r'\s', '')`, `str.strip`, `str.capitalize`, `sorted` of strings |
| `calendar.dfy` | `Calendar` | `month_columns`, `month_to_num`, `list.index` |
| `cells.dfy` | `Cells` | normalising one cell |
| `finance.dfy` | `Finance` | the cleaning loop, the groupby sums, the id stripping, the left join |
| `stop_filter.dfy` | `StopFilter` | `check_for_stop` and the `to_exclude` mask |
| `long_form.dfy` | `LongForm` | `melt` with both ordinal columns |
| `coefficients.dfy` | `Coefficients` | the K1/K2 sets, `groupby('AM').sum()`, the Series division, the department totals |
| `retention.dfy` | `Retention` | K1 and K2 restated over the projects instead of the long table |
| `month_loop.dfy` | `MonthLoop` | the month loop with its summary and detail rows |
| `annual.dfy` | `Annual` | the annual rollup and its order |
| `ordering.dfy` | `Ordering` | the summary's categorical sort and the pivot's month order |
| `engine.dfy` | `Engine` | the whole script from the two tables to the four sheets |
| `scenario.dfy` | `Scenario` | a worked two-project example |

Modelling choices:

- **Style.** `main.py` is modelled in its own style. The parts that loop and
  update state are methods with loop invariants:
  - the column-rewrite loop, over a two-dimensional array;
  - `check_for_stop` with its early return;
  - the `to_exclude` mask;
  - the month loop that appends to `results_summary` and `results_detailed`.

  The table expressions are functions, and each method is proved equal to
  the function that specifies it.
- **Numbers.** Amounts are exact reals.
- **NaN.** The NaN of a missing financial row is modelled as 0, because
  every later use reads it as 0, as "not -1" or as "not > 0".
- **Infinity.** A per-manager ratio with a zero base and a non-zero
  prolongation is ±infinity in the script, because `fillna(0)` does not
  replace it. The model keeps it as the `Coefficient` values `PosInf` and
  `NegInf`.

Where the code and the written description of the script disagree, the
model follows the code:

- A completion month that is not a calendar name does not exclude the
  project. `list.index` raises ValueError, and `check_for_stop` answers
  False (main.py:48).
  - The project stays in the analysis.
  - It has no completion ordinal, so it never enters a base set.
  - Its AM still joins the roster (main.py:63).
- The stop marker is the number -1 after cleaning, not a tag. So a cell "-1"
  also stops a project, and a -1 that was summed with other cells of the
  same id no longer does.
- The `'в ноль'` entry of the replacement table can never fire, because
  whitespace is removed first. The phrase becomes 'вноль', which does not
  parse, and so reads 0.
- The roster of managers in the monthly summary comes from the analytics
  table (main.py:63). It does not come from the managers that have a base in
  a given month. A manager without a base therefore still gets a row with 0.
- The annual department totals sum every detail row of the type, including
  rows without an AM. The monthly department totals drop those rows, because
  `groupby('AM')` does.

## Model

| member | source | states |
|---|---|---|
| Calendar.MonthsDistinct | main.py:20-24 | no month name occurs twice in `month_columns` |
| Calendar.IndexIn | main.py:45 | the first position of a name, as `list.index`, or None exactly when the name is absent (the ValueError) |
| Calendar.MonthPosition | main.py:42-45 | each calendar month is found at its own index and has the 1-based ordinal index + 1 |
| Calendar.OrdinalIsIndexPlusOne | main.py:42-57 | `month_to_num` and `list.index` agree on every name: both are defined or both fail, and ordinal = index + 1 |
| Calendar.NumberFromAt | main.py:42 | the dictionary comprehension maps entry i to i + 1 |
| Calendar.NumberFromKeys | main.py:42 | the dictionary's keys are exactly the calendar names |
| Calendar.MonthsAreCapitalized | main.py:18 | every calendar name is its own `str.capitalize`, however its letters are cased |
| Text.RemoveSpaces | main.py:30 | the result holds no whitespace and only characters of the input |
| Text.RemoveSpacesIgnoresInsertion | main.py:30 | whitespace inserted anywhere is removed again |
| Text.Strip | main.py:37-38 | the result neither starts nor ends with whitespace |
| Text.StripPadded | main.py:37-38 | stripping removes exactly the whitespace padding around a value |
| Text.StripIdempotent | main.py:37-38 | stripping twice is stripping once |
| Text.CapitalizeIdempotent | main.py:18 | capitalising twice is capitalising once |
| Text.CapitalizeIgnoresCase | main.py:18 | lower- or upper-casing a name first does not change its capitalisation |
| Text.LessTotal | main.py:159-167 | Python's string order compares any two different strings |
| Text.LessTransitive | main.py:159-167 | Python's string order is transitive |
| Text.SortDistinct | main.py:159-167 | `sorted` of the distinct values: strictly ascending, with the same elements as the input |
| Text.SortedUnique | main.py:159-167 | two strictly sorted sequences with the same elements are equal, so the sorted order is unique |
| Cells.CommaToPoint | main.py:31 | each comma becomes a point and every other character stays |
| Cells.CleanHasNoSpaces | main.py:30-31 | a cleaned cell holds no whitespace |
| Cells.NaughtEntryIsDead | main.py:30-32 | no cleaned cell equals 'в ноль', so that replacement never fires |
| Cells.NaughtPhraseIsZero | main.py:29-33 | the phrase 'в ноль' normalises to 0 |
| Cells.StopWordsAreMarkers | main.py:29-33 | 'стоп' and 'end', however padded with whitespace, become -1 |
| Cells.StopEntry | main.py:32 | a cell that cleans to 'стоп' or 'end' becomes -1 |
| Cells.UnparsableIsZero | main.py:33 | a cell that is neither a stop word nor a number becomes 0 (`errors='coerce'` then `fillna(0)`) |
| Cells.NoNumberStart | main.py:33 | text that starts with a character no number starts with does not parse |
| Cells.NormalizeNumber | main.py:29-33 | a cell that cleans to a number outside the replacement table normalises to that number |
| Cells.NormalizeIgnoresSpaces | main.py:30 | whitespace anywhere in a cell, even inside a number, does not change its value |
| Cells.CleanPadded | main.py:30-31 | cleaning removes exactly the padding around a value without whitespace or commas |
| Cells.NormalizeNat | main.py:33 | a whole number written in digits normalises to itself |
| Cells.NormalizeNegative | main.py:32-33 | a leading minus negates, so the text "-1" is itself the stop marker |
| Cells.CommaIsDecimalPoint | main.py:31-33 | "12,5" is read as twelve and a half |
| Cells.ParseDecimal | main.py:33 | digits, a point and digits parse as that decimal |
| Cells.NatToDigitsValue | main.py:33 | the decimal digits of n read back as n |
| Finance.NormalizeColumns | main.py:27-33 | the column loop gives each cell the normalised value of its raw cell and keeps every id |
| Finance.NormalizeColumn | main.py:29-33 | one pass rewrites column `col` of every row and leaves every other column unchanged |
| Finance.NormalizeColumnsIsTable | main.py:27-33 | the loop's result is the table of normalised cells |
| Finance.GroupRow | main.py:36 | the aggregated row of an id holds, per month, the sum over that id's rows |
| Finance.GroupByRawIdSpec | main.py:36 | the aggregated ids are strictly sorted, are exactly the raw ids, and each row holds its id's column sums |
| Finance.AggregationLookup | main.py:36 | every raw id gets exactly one aggregated row, holding the sum of that id's values with -1 summed as a number |
| Finance.ColumnSumConcat | main.py:36 | a column sum over two tables is the sum of the two sums |
| Finance.ColumnSumAbsent | main.py:36 | rows of other ids do not contribute to an id's sum |
| Finance.StripIds | main.py:38 | stripping the ids keeps every row and its amounts |
| Finance.PrepareCompletion | main.py:18-37 | completion months are capitalised and ids stripped, the row count and the AM unchanged |
| Finance.PaddedIdsGroupApart | main.py:36-38 | ids are grouped before stripping: "A" and " A" give two aggregated rows, both with id "A" |
| Finance.StrippedIdsDistinct | main.py:36-38 | stripping keeps the aggregated ids distinct when it merges no two of them |
| Finance.Matches | main.py:39 | the join partners of an id are exactly the financial rows with that id |
| Finance.JoinOne | main.py:39 | a completion row yields at least one joined row, each with its id, month and AM |
| Finance.LeftJoinCovers | main.py:39 | every completion row survives the left join: its id, month and AM occur in some joined row |
| Finance.LeftJoinFromCompletion | main.py:39 | every joined row carries the id, month and AM of some completion row |
| Finance.LeftJoinWellFormed | main.py:39 | every joined row has one amount per calendar month |
| Finance.LeftJoinOnePerRow | main.py:39 | with distinct financial ids each completion row appears exactly once, in order, with its own amounts or zeros |
| Finance.JoinOneOfDistinct | main.py:39 | with distinct financial ids a completion row has exactly one joined row |
| Finance.MatchesOfDistinct | main.py:39 | with distinct financial ids an id has at most one partner |
| StopFilter.ScanForStop | main.py:46-47 | the early-return loop answers whether some month 0..e holds -1 |
| StopFilter.CheckForStop | main.py:43-49 | `check_for_stop` answers the stop predicate, and False for an unknown month name |
| StopFilter.StopMask | main.py:51 | the `to_exclude` column has one entry per joined row, True exactly for the stopped ones |
| StopFilter.ExcludeStopped | main.py:51-52 | the mask column and the selection leave exactly the unstopped rows in order |
| StopFilter.Survivors | main.py:52 | a row is in `analytics_df` exactly when it is a joined row that is not stopped |
| StopFilter.StopWindow | main.py:43-49 | a project completed in month i is excluded exactly when some month at index ≤ i holds -1 |
| StopFilter.LateStopIsKept | main.py:46-47 | a -1 strictly after the completion month does not exclude |
| StopFilter.KeptHasNoEarlyStop | main.py:43-52 | a kept project has no -1 up to and including its completion month |
| StopFilter.UnknownMonthIsKept | main.py:48-57 | a project with an unknown month name is kept but has no completion ordinal |
| Scenario.TwoRowsOneGroup | main.py:36 | two raw rows of one id group into a single row holding their column sums |
| Scenario.SummedStopIsNoStop | main.py:36-52 | a raw id with -1 in one row and 500 in another for the same month joins as one project with 499 there, which the stop filter keeps |
| LongForm.Block | main.py:56 | one month column gives one observation per project, in project order |
| LongForm.MeltLength | main.py:56 | the reshape yields exactly 14 observations per project |
| LongForm.MeltFromConsistent | main.py:56-58 | every observation's completion ordinal is its month's ordinal, and its shipment ordinal lies in 1..14 |
| LongForm.MeltFromOrigin | main.py:56 | every observation is the observation of some project for some calendar month |
| LongForm.ShipmentMonth | main.py:56-75 | selecting shipment ordinal c + 1 gives exactly column c of every project |
| LongForm.SelectEndMeltFrom | main.py:57-73 | selecting a completion ordinal on the long table is selecting the projects before the reshape |
| LongForm.BaseSelection | main.py:73-77 | the rows completed at e and shipped at c + 1 are column c of the projects completed at e |
| LongForm.FilterMeltFrom | main.py:56-85 | a selection that reads only a project's own fields commutes with the reshape |
| LongForm.UnknownMonthNeverInBase | main.py:57-82 | no project with an unknown month name enters any base set |
| Coefficients.LoopMonthOrdinals | main.py:42-69 | the loop's current, previous and two-back month numbers are `month_to_num` of `month_columns[M_idx]`, `[M_idx - 1]` and `[M_idx - 2]` |
| Coefficients.SeriesRatio | main.py:79-91 | with a non-zero base the ratio times the base is the prolongation; 0/0 gives 0; x/0 gives +inf or -inf by the sign of x |
| Coefficients.GuardedRatio | main.py:97-98 | with a positive base the ratio times the base is the numerator; otherwise 0 (see also lines 142, 146) |
| Coefficients.Managers | main.py:75 | the non-null AM values, exactly the managers that have rows |
| Coefficients.GroupKeys | main.py:75-77 | the groupby index: strictly sorted, exactly the managers with rows; null AM is dropped |
| Coefficients.GroupSum | main.py:75-77 | the groupby sums: defined exactly for the managers with rows, each the sum of that manager's amounts |
| Coefficients.Divide | main.py:79-91 | Series division is aligned on the union of both indexes |
| Coefficients.DivideGet | main.py:79-96 | a manager's value is the ratio of its sums when it has rows on both sides, and 0 otherwise |
| Coefficients.SeriesTotalIsManagedSum | main.py:97-98 | the total of a grouped Series is the sum over the rows with a manager |
| Coefficients.KeySumCovers | main.py:97-98 | summing the group sums over keys covering every manager gives the total of all managed rows |
| Coefficients.K1OfManager | main.py:73-79 | a manager's K1 is the ratio of its grouped sums at the current and previous ordinals, or 0 without base rows |
| Coefficients.K2OfManager | main.py:82-91 | a manager's K2 is the ratio of its grouped sums over the K2 set, or 0 without base rows |
| Coefficients.NoBaseIsZero | main.py:79-96 | a manager without base rows gets 0 for K1 and K2 |
| Coefficients.ZeroBase | main.py:79 | a zero base gives 0 exactly when the prolongation is 0, and +inf exactly when it is positive |
| Coefficients.DepartmentIsRatioOfTotals | main.py:97-98 | the department values are the guarded ratios of the managed totals |
| Coefficients.K2Exclusion | main.py:82-85 | a row is in the K2 set exactly when it was completed two months back and no row of its id in that set shipped positively last month |
| Coefficients.DepartmentIsBaseWeighted | main.py:97-98 | the department's prolongation total is the base-weighted sum of the managers' coefficients |
| Coefficients.WeightedIsNotMean | main.py:97 | example: bases 100 and 1 with prolongations 50 and 1 give 51/101, not the mean 0.75 |
| Retention.BlockSums | main.py:75-97 | a manager's sum over one month column of the long table is its projects' sum for that column |
| Retention.BlockManagers | main.py:75 | a manager has rows in a month column exactly when it manages one of the projects |
| Retention.SelectionFacts | main.py:73-77 | sums and managers of the base and prolongation rows, read over the projects completed at the base ordinal |
| Retention.K1FromProjects | main.py:73-79 | a manager's K1 is its projects' current-month shipments over their previous-month shipments, over the projects completed last month, or 0 if it has none |
| Retention.DepartmentK1FromProjects | main.py:97 | the department K1 is the guarded ratio of the same totals over every managed project completed last month |
| Retention.ProlongedIdsOfProjects | main.py:84 | an id is excluded exactly when some project completed two months back under that id shipped positively last month |
| Retention.ExclusionBeforeMelt | main.py:84-85 | excluding the ids on the long table is excluding the projects before the reshape |
| Retention.K2SetOfProjects | main.py:82-85 | the filtered K2 table is the reshape of the K2 projects |
| Retention.K2FromProjects | main.py:82-91 | a manager's K2 is its K2 projects' current-month shipments over their shipments two months back, or 0 if it has none |
| Retention.DepartmentK2FromProjects | main.py:98 | the department K2 is the guarded ratio of the totals over every managed K2 project |
| Retention.K2ProjectsOfUniqueIds | main.py:84-85 | with unique ids exactly the candidates that shipped nothing positive last month are K2 projects |
| Retention.SharedIdExcludesBoth | main.py:84-85 | two candidates under one id are excluded together when either shipped last month |
| MonthLoop.Roster | main.py:63 | the roster holds each non-null AM of the analytics table once |
| MonthLoop.ManagerRows | main.py:95-96 | one summary row per roster manager, in order, with its `k.get(manager, 0)` values |
| MonthLoop.MatchRows | main.py:103-111 | a base row merged with its matches gives one detail row per match, with the base row's id, AM and base |
| MonthLoop.MergeOne | main.py:103-111 | a base row yields one detail row per prolongation row of its id, with that row's amount, or a single row with Пролонгация 0 when there is none; each carries the base row's id, AM cell, База, month and type |
| MonthLoop.SameIdMatches | main.py:103-111 | the first matching prolongation row gives the reference `FirstProlongation`, no match gives 0, and distinct prolongation ids give at most one match |
| MonthLoop.DetailMerge | main.py:101-114 | the left merge keeps every base row, and every row carries the month and the type |
| MonthLoop.DetailMergeOnePerRow | main.py:101-114 | with at most one prolongation row per id, row i of the merge is base row i with its id, AM cell, База, and the matching Пролонгация or 0 |
| MonthLoop.ComputeMonth | main.py:67-114 | one iteration computes the month's values and detail rows as defined over the long table |
| MonthLoop.EmitSummary | main.py:95-99 | the appends of one iteration are the month's rows |
| MonthLoop.ExtendIfAny | main.py:104-115 | skipping an empty merge appends the same rows as extending with it |
| MonthLoop.ComputeMonthly | main.py:66-115 | the loop leaves the summary of the iterations 2..13 and the detail rows of those months |
| MonthLoop.MonthRowsShape | main.py:95-99 | each iteration emits one row per roster manager, then the department row, all for its month |
| MonthLoop.SummaryBlock | main.py:95-99 | the rows of iteration j form block j of the summary |
| MonthLoop.YearBlock | main.py:66-99 | the rows of loop index j + 2 fill block j of the year's summary |
| MonthLoop.MonthRowOf | main.py:95-99 | row i of month t's block holds manager i's K1 and K2, and the last row holds the department values |
| MonthLoop.YearSummaryLength | main.py:66-99 | the year's summary has 12 × (roster size + 1) rows |
| Annual.Names | main.py:159 | the names are exactly the named AMs of the detail rows other than 'Весь отдел' |
| Annual.RowsFor | main.py:147-152 | one row per AM of the order, with its annual K1 and K2 |
| Annual.OrderAsWrittenFails | main.py:159 | line 159 raises exactly when a row without an AM sits beside a named AM; otherwise it gives the intended order |
| Annual.MixedManagersCrash | main.py:159 | a K1 detail row without an AM next to one of AM X makes line 159 fail |
| Annual.EmptyDetailsNoReport | main.py:117-119 | without detail rows the annual report is empty, without even the department row |
| Annual.FrontMembers | main.py:159-161 | the AMs ordered before the department are exactly the AMs of the detail rows other than 'Весь отдел' |
| Annual.OrderShape | main.py:159-161 | names in ascending code-point order, each once, then the group without an AM, then 'Весь отдел' |
| Annual.ReportShape | main.py:147-161 | one row per AM of the detail rows with its annual ratios, and the department row last |
| Annual.MissingTypeIsZero | main.py:147-152 | an AM with rows of one type only gets 0 for the other type |
| Annual.AnnualTotalsKeepUnassigned | main.py:140-146 | the annual department sums are the sums over the named rows plus those without an AM |
| Ordering.Bucket | main.py:169-170 | the sorted rows are exactly the rows whose category is listed |
| Ordering.Rank | main.py:169 | a category's code is its position; a value outside the categories sorts last |
| Ordering.BucketPermutation | main.py:169-170 | the sort keeps every row as often as before |
| Ordering.BucketSorted | main.py:169-170 | along the sorted rows the category codes never decrease |
| Ordering.BucketStable | main.py:169-170 | the rows of one category keep their original order |
| Ordering.PlainNames | main.py:167 | the names considered are exactly the managers other than 'Весь отдел' and 'без А/М' |
| Ordering.CustomOrderShape | main.py:166-168 | `custom_order` holds distinct names: sorted names, then 'без А/М', then 'Весь отдел', covering every summary row |
| Ordering.SortSummaryIsPermutation | main.py:169-170 | the sorted summary is a permutation of the summary, ordered by category, each manager's rows in month order |
| Ordering.SummaryMonths | main.py:93-99 | every summary row carries the month of one of the iterations |
| Ordering.YearMonthPresent | main.py:66-93 | every month from January 2023 on has rows in the summary |
| Ordering.EarlyMonthsAbsent | main.py:66 | November and December 2022 have no rows in the summary |
| Ordering.YearMonthColumns | main.py:173-174 | the pivot's month columns are January to December 2023 in calendar order |
| Engine.Aggregated | main.py:27-38 | the cleaned, aggregated, stripped table has 14 amounts per row |
| Engine.Analytics | main.py:18-52 | the analytics table holds no stopped project |
| Engine.ReportOf | main.py:11-13 | with the corrected annual order of the main.py:159 finding, the sheets are missing exactly when either input table is empty |
| Engine.Run | main.py:4-174 | the stage-by-stage run, with the corrected annual order, produces exactly the sheets `ReportOf` composes, or nothing for an empty table |
| LongForm.ObservationOfKept | main.py:43-58 | the observation of a kept project at or before its completion month is not -1 |
| LongForm.MeltOfKeptIsStopFree | main.py:43-58 | no observation of unstopped projects holds -1 at or before its completion month |
| Engine.ObservationsStopFree | main.py:43-58 | the long table of the analytics holds no -1 at or before a project's completion month |
| Engine.ReportMonths | main.py:172-174 | for non-empty inputs the pivot's month columns are January to December 2023 |
| Engine.ReportSheets | main.py:117-170 | the summary sheet is a permutation of 12 × (roster + 1) rows; the corrected annual sheet is empty without detail rows, and otherwise ends with the department row |
| Scenario.SampleCompletedInJanuary | main.py:57-73 | both sample projects carry January 2023's completion ordinal 3 |
| Scenario.FebruaryK1OfX | main.py:73-79 | X kept 800 of 1000 in February: K1 = 0.8 |
| Scenario.FebruaryK1OfY | main.py:73-79 | Y kept nothing of 1000: K1 = 0 |
| Scenario.FebruaryDepartmentK1 | main.py:97 | the department kept 800 of 2000: K1 = 0.4 |
| Scenario.MarchK2 | main.py:82-98 | A, prolonged in February, leaves the March K2 base; Y recovered 250 of 1000; X gets 0 |

## Left out

- Reading the CSV files, the `print` messages, `exit()` and writing the Excel workbook (main.py:4-9, 12, 15, 53, 118, 176-182). These are I/O. The model takes the two tables as values and returns the sheets as values. Of the load phase only the empty-table check is kept, as `None`.
- The pivot table (main.py:172): its MultiIndex and its mean aggregation. Only the calendar order of its month columns (main.py:173-174) is modelled.
- Finance.RawWellFormed: the tables always have the columns id, month and AM, and the financial table all 14 month columns. When a month column is missing, the script skips it while cleaning (the `if col in columns` guard at main.py:28), then raises KeyError at main.py:36, because `groupby('id')[month_columns]` needs every column. A missing `month` or `id` column raises KeyError at main.py:18 or 37. Missing columns are not modelled, so `Engine.Aggregated`, `Analytics`, `ReportOf`, `Run`, `ReportMonths` and `ReportSheets` require well-formed tables.
- Floating point. Amounts and ratios are exact reals. The only float artefact kept is ±infinity for x/0 in the per-manager Series division.
- `pd.to_numeric`: modelled on a decimal grammar only, that is an optional sign, digits and at most one point. Exponents, 'inf', 'nan', underscores and thousands separators are left out.
- `str.capitalize`: modelled for ASCII and the basic Cyrillic block; other characters are left unchanged. `re`'s `\s` is modelled as Python's `str.isspace` set.
- Ordering.SortSummary: `sort_values` on a categorical column is not a stable sort in pandas. The model is a stable bucket sort, so the order of rows within one category is stated only for the model.
- Annual.Arrange: a manager literally named 'Весь отдел' shares its category with the total row. Their relative order after `sort_values` is left to pandas and is not modelled.
- Finance.GroupByRawId: ids are never null in the model. pandas reads an empty or NA id as NaN and `groupby('id')` (main.py:36) drops such a financial row; a null completion id becomes the string 'nan' at main.py:37 and joins to zeros. Neither case is modelled.
- Engine.ReportOf: composes the corrected annual order of the main.py:159 finding (`Annual.Report`). The script as written raises TypeError there and writes nothing when an unassigned detail row sits beside a named one; that case is modelled separately by `Annual.ReportAsWritten` and is not part of `Engine.ReportOf`, `Engine.Run` or `Engine.ReportSheets`.
- Finance.GroupByRawId: the ids are compared as strings. pandas' key order for ids of mixed types (numbers read as numbers) is not modelled.
- The row order of the detail merges (main.py:103, 111) is modelled as base order, then match order. It is pandas' order for a left join; apart from that, pandas' join internals are out of scope.
- The `AM` column of `annual_report_df` after `fillna(0)` holds the number 0 for rows without a manager. The model writes that value as `Manager.Filled`.

## Findings

| source | as written | input that shows it | evidently intended | confidence | as-written member | corrected member |
|---|---|---|---|---|---|---|
| main.py:159 | `sorted()` over the AM values, taken after `fillna(0)` turned a null AM into the number 0 | one K1 detail row without an AM and one with AM "X": `sorted([0, 'X'])` raises TypeError and no report is written | names in sorted order, then the group without an AM, then 'Весь отдел', as the monthly order does at main.py:167-168 | not executed | Annual.ReportAsWritten, Annual.MixedManagersCrash, Annual.OrderAsWrittenFails | Annual.Report, Annual.OrderShape, Annual.ReportShape |
