# Hospital insurance dashboard: period-comparison core

This project models the computing core of a hospital dashboard built on insurance settlement data (BHYT). Its components are:

- **The enriched view** (`create_view.py`). Each settlement record gets:
  - its visit kind (`ml2`, inpatient "Nội trú" or outpatient "Ngoại trú") and sub-kind (`ml4`), from the visit-type lookup;
  - its facility name, from the facility lookup;
  - a department label (`khoa`), from a four-branch CASE with the sentinel department code K35;
  - a three-character diagnosis group (`ma_benh_chinh`).

  Every lookup is a LEFT JOIN restricted to entries in force on the first day of the settlement month.
- **Period selection** (shared by the three comparison pages):
  - the `year*100 + month` period key;
  - the `MM.YY` / `MM.YY-MM.YY` period labels;
  - the to-month filter and its fallback;
  - the validation of chosen periods;
  - the editable list of periods with increasing ids.
- **Cost by department** (`views/cost_by_dept.py`):
  - the per-department aggregation;
  - the averages (BQ) and ratio cells, and the difference and percent-change cells;
  - the column profile (a saved list of metric keys);
  - the grouping of departments across periods and their ordering;
  - the per-section sums and the grand total.
- **Hospital statistics** (`views/hospital_stats.py`):
  - the inpatient/outpatient/total table of 28 rows;
  - a total column that adds the two kinds, and averages that are ratios of totals;
  - the difference and percent-change cells.
- **ICD analysis** (`views/icd_analysis.py`):
  - per-diagnosis-group rows with average days, average cost and share of the period total;
  - the difference column and the total row;
  - the cumulative-share selection of the diagnosis groups shown;
  - the period cache key and its parsing.
- **Overview pivot** (`views/overview.py`): months against facility columns for each kind, with kind totals, a grand total and a year line.
- **Upload** (`upload_to_bigquery.py`):
  - parsing of `YYYYMMDD` integers and `YYYYMMDD[HHMM[SS]]` strings;
  - the two-stage duplicate check (patient-id batches of 5000, then an exact match on the five-column row key);
  - the "keep only new rows" choice.
- **Paginated table** (`tw_components.py`): the page count, clamping, the page slice and caption, the three navigation controls, and the default column alignment.

The SQL queries are modelled by a reference semantics (module `Aggregate`):

- `BETWEEN` is inclusive;
- `SUM(IFNULL(x, 0))`;
- `COUNT(*)` as a sum of ones;
- `GROUP BY` as a map from key to per-field totals.

The pages are then proved against that semantics: the hospital total column is the whole-hospital sum, the totals of the corrected pivot equal the month sums (the code as written double-counts; see "## Findings"), the grand total covers every department, and the ICD shares add up to 100.

Pure code becomes functions and lemmas. Loops that build lists or dictionaries become methods with loop invariants, proved against a specification function. Two stateful objects become classes:

- the session's period list (`Periods.PeriodList`);
- the pager's session keys (`Pagination.Pager`).

Numbers are `real` (exact), so the floating-point behaviour of Python and BigQuery is not modelled. Notes on the code's behaviour:

- The ICD selection keeps the *longest* prefix of the descending share list whose running sum stays within the threshold. The loop breaks at the first code that would overflow. When that leaves the list empty, the top code alone is used, with no separate "first code always included" rule.
- The section totals of the overview pivot add the facility columns. As written, that double-counts a facility code listed under two names; see Findings.
- The column names that the profile lookup table gives to the BHTT/BNTT averages ("BQ BHTT", "BQ BNTT") differ from those of the default column list ("BQ Tiền BHTT", "BQ Tiền BNTT"). `CostByDept.DefaultColumnsMatchLookup` states exactly this difference.

## Model

| member | source | states |
|---|---|---|
| Periods.YmToIntChronological | views/cost_by_dept.py:40-42 | for months 1..12, the period key orders periods chronologically: key1 <= key2 iff (year, month) is lexicographically <= |
| Periods.YmToIntDecodes | views/cost_by_dept.py:40-42 | year and month are recovered from the key by `/ 100` and `% 100` |
| Periods.FormatPeriodLabelSingleIff | views/cost_by_dept.py:45-49 | the label has 5 characters iff from and to are the same month, and 11 characters otherwise |
| Periods.FormatPeriodLabelRoundTrip | views/cost_by_dept.py:45-49 | parsing a label gives back (from month, from year mod 100, to month, to year mod 100) |
| Periods.HospitalPeriodLabel | views/hospital_stats.py:40-45 | a single month gets the "Tháng " prefix; a range gets the plain label |
| Periods.AtOrAfter | views/cost_by_dept.py:1199-1201 | keeps exactly the offered to-months whose key is at or after the from-period, each as often as it occurs |
| Periods.AtOrAfterAppend | views/cost_by_dept.py:1201 | the filter of a concatenation is the concatenation of the filters, so the months keep their order |
| Periods.AtOrAfterAscending | views/cost_by_dept.py:35-37 | the year's months in increasing order stay increasing after the filter |
| Periods.AtOrAfterLast | views/cost_by_dept.py:1199-1201 | for increasing months, when any month is kept the last one kept is the year's latest month |
| Periods.ValidToMonths | views/cost_by_dept.py:1199-1203 | when some to-month qualifies, the offered list is the filtered list, so exactly those months; otherwise every month is offered |
| Periods.LastOfferedIsLatest | views/cost_by_dept.py:1199-1205 | for the year's increasing months, the offered months increase and the default (last) one is the year's latest month, with or without the fallback |
| Periods.ValidToMonthsDecidesValidation | views/cost_by_dept.py:1229-1245 | an offered month passes validation exactly when the filter did not fall back |
| Periods.DefaultToMonthIndex | views/cost_by_dept.py:1205-1209 | the saved to-month is preselected when it is offered; otherwise the last offered month |
| Common.IndexOf | views/cost_by_dept.py:1209 | `list.index` (also behind the size box's preselection, tw_components.py:824): the first position holding the value |
| Periods.ValidIndicesExact | views/cost_by_dept.py:1229-1245 | a period index is kept iff its from-key <= to-key; kept indices are increasing |
| Periods.CollectPeriods | views/cost_by_dept.py:1229-1245 | the collected periods are the chronological choices in order, and every one is chronological |
| Periods.WithoutDropsOne | views/cost_by_dept.py:74-78 | with distinct ids, removing an id drops exactly its one entry and keeps the order of the others |
| Periods.WithoutAbsent | views/cost_by_dept.py:74-78 | removing an absent id leaves the list unchanged |
| Periods.WithoutDistinct | views/cost_by_dept.py:74-78 | removal keeps the ids distinct |
| Periods.PeriodList.constructor | views/cost_by_dept.py:57-65 | a fresh list has periods 1 and 2, and the next id is 3 |
| Periods.PeriodList.Add | views/cost_by_dept.py:68-71 | appends a period with the next id and increments the counter; ids stay distinct and below the counter |
| Periods.PeriodList.Remove | views/cost_by_dept.py:74-78 | removes the period with that id (exactly that entry) and leaves the counter alone |
| Text.DecimalRoundTrip | views/cost_by_dept.py:45-49 | `int(str(n)) == n` for the digit rendering used in labels and keys |
| Text.Pad2RoundTrip | views/cost_by_dept.py:45-49 | `{n:02d}` has two digits for n < 100 and reads back as n |
| Text.JoinSplit | views/icd_analysis.py:136-139 | joining the pieces of `str.split(sep)` with sep gives back the string |
| Text.SplitJoin | views/icd_analysis.py:136-139 | splitting a join of separator-free parts gives back the parts |
| Text.StrLtTransitive | views/cost_by_dept.py:460-467 | Python string order is transitive |
| Text.StrLtTotal | views/cost_by_dept.py:460-467 | Python string order is total on distinct strings |
| Text.StrLtIrreflexive | views/cost_by_dept.py:460-467 | Python string order is irreflexive |
| Text.StrLtAsymmetric | views/cost_by_dept.py:460-467 | Python string order is asymmetric |
| Enrich.DateIntOrder | create_view.py:31-35 | the YYYYMMDD integer orders dates as (year, month) then day |
| Enrich.InForceByMonth | create_view.py:31-35 | a lookup entry is in force for a settlement month iff it starts before that month (or on its first day) and does not end in an earlier month |
| Enrich.Khoa | create_view.py:46-61 | the label is NULL exactly when the short name is NULL and the row is not an outpatient visit, or is outpatient treatment at K35 |
| Enrich.KhoaFollowsDocumentation | create_view.py:10-14 | on the four documented cases the CASE gives the documented label |
| Enrich.KhoaBeyondDocumentation | create_view.py:46-61 | any other outpatient sub-kind gets "Khám bệnh (facility)"; any non-outpatient or unknown kind gets the short name |
| Enrich.ExaminationName | create_view.py:57 | "Khám bệnh (" + facility name + ")", with the empty string for a NULL name |
| Enrich.MaBenhChinh | create_view.py:62 | NULL iff the code is NULL; otherwise the first min(3, length) characters |
| Enrich.MaBenhChinhGroups | create_view.py:62 | two codes of length >= 3 share a group iff their first three characters agree |
| Enrich.LoaiKcbMatches | create_view.py:66-69 | the visit-type entries joined are exactly those with the record's code that are in force |
| Enrich.CskcbMatches | create_view.py:71-74 | the facility entries joined are exactly those with the record's facility code that are in force |
| Enrich.KhoaMatches | create_view.py:76-80 | the department entries joined are exactly those with the record's facility and department code that are in force |
| Enrich.LeftSide | create_view.py:64-80 | LEFT JOIN: one NULL-extended row when nothing matches, otherwise one row per match |
| Enrich.EnrichFactCount | create_view.py:64-80 | a record yields the product of its three match counts (each at least 1), so never zero rows |
| Enrich.EnrichFactUnique | create_view.py:46-80 | with at most one entry in force per key, a record yields exactly one view row built from those entries |
| Enrich.ViewOneRowPerFact | create_view.py:64-80 | with unambiguous lookups the view has one row per record, in order |
| Aggregate.InRangeInclusive | views/cost_by_dept.py:141-142 | `BETWEEN` on period keys is the inclusive chronological range of (year, month) |
| Aggregate.Totals | views/cost_by_dept.py:133-166 | each summed field is the sum of its column over the group |
| Aggregate.Where | views/cost_by_dept.py:161-162 | the selection keeps exactly the rows that satisfy the predicate, each as many times as it occurs, and drops the others |
| Aggregate.Group | views/cost_by_dept.py:163 | a group holds exactly the rows with that key, each as many times as it occurs |
| Aggregate.GroupBy | views/cost_by_dept.py:163 | one entry per key occurring in the rows, holding the totals of that key's rows |
| Aggregate.DeptQuery | views/cost_by_dept.py:133-166 | a (kind, department) pair is a key iff some in-range row with a non-NULL department has it; every entry has every field |
| Aggregate.HospitalQuery | views/hospital_stats.py:104-127 | a kind is a key iff some in-range row with a department has it |
| Aggregate.HospitalSelection | views/hospital_stats.py:104-127 | the rows summed are exactly the in-range rows with a department |
| Aggregate.IcdQuery | views/icd_analysis.py:90-127 | a group is a key iff some in-range row has it and passes the kind and department filters |
| Aggregate.TotalsAdditive | views/cost_by_dept.py:133-166 | a column sum over two row lists is the sum of the two column sums |
| Aggregate.CountIsRowCount | views/cost_by_dept.py:133-166 | the visit count of a group is its number of rows |
| Aggregate.NullColumnSumsToZero | views/cost_by_dept.py:133-166 | `SUM(IFNULL(x,0))` over all-NULL values is 0 |
| Aggregate.SumNonNegative | views/cost_by_dept.py:133-166 | non-negative amounts sum to a non-negative total |
| Aggregate.GroupOfAbsentKey | views/cost_by_dept.py:163 | a key that no row has yields no rows |
| Aggregate.TwoGroupsPartition | views/hospital_stats.py:104-127 | when every row has one of two distinct keys, the column sum is the sum of the two groups' sums |
| Common.Dict | views/hospital_stats.py:206-216 | `dict(rows)` has a key iff some row has it |
| Common.DictLastWins | views/hospital_stats.py:206-216 | the value of a key is that of its last row |
| Common.BuildDicts | views/hospital_stats.py:206-216 | each period's lookup is the dict of its rows, or empty when its query returned nothing |
| HospitalStats.BuildData | views/hospital_stats.py:206-216 | each period's lookup is the dict of its rows, or empty when its query returned nothing |
| HospitalStats.Get | views/hospital_stats.py:219-224 | a missing kind or field reads as 0 |
| HospitalStats.TotalIsWholeHospital | views/hospital_stats.py:227-228 | the total of a field over the two kinds equals the sum of that field over every selected row (when every row is of one of the two kinds) |
| HospitalStats.GroupValue | views/hospital_stats.py:219-224 | the value read for a kind is the sum over that kind's rows of the selection |
| HospitalStats.TotalColumnAdds | views/hospital_stats.py:261-265 | for visits and amounts, the total column is inpatient plus outpatient |
| HospitalStats.Bq | views/hospital_stats.py:231-234 | the average is 0 for zero visits or zero amount; otherwise average × visits = amount |
| HospitalStats.TotalAverageIsRatioOfTotals | views/hospital_stats.py:296-299 | the total average is the total amount over the total visits, and the total amount is the visit-weighted sum of the two kinds' averages |
| HospitalStats.TotalAverageIsNotSumOfAverages | views/hospital_stats.py:296-299 | a concrete period where the total average (100) differs from the sum of the kinds' averages (200) |
| HospitalStats.DaysRowsAreInpatientOnly | views/hospital_stats.py:267-279 | the days and average-days rows are 0 for outpatients, and their total equals the inpatient value |
| HospitalStats.Series | views/hospital_stats.py:252-256 | one value per period, each the measure of that period for the group |
| HospitalStats.DataRow | views/hospital_stats.py:252-256 | a data row has the three groups, each with one value per period |
| HospitalStats.BuildAllRows | views/hospital_stats.py:242-303 | the table has 28 rows, each the row of its position |
| HospitalStats.HeadRowsAt | views/hospital_stats.py:258-293 | rows 0..4 and 16 are the sections "Chung", "Số tiền" and "Bình quân" and the visits, days and average-days rows |
| HospitalStats.CostRowAt | views/hospital_stats.py:283-301 | rows 5..15 are the amounts of the cost fields and rows 17..27 their per-visit averages, in field order |
| HospitalStats.RowShape | views/hospital_stats.py:242-303 | rows 0, 4 and 16 are empty sections; every other row has three groups with one value per period; bold iff row 13 or 25 |
| HospitalStats.CostBlock | views/hospital_stats.py:283-301 | one row per cost field, with the field's caption and measure, bold only for the grand cost |
| HospitalStats.OnlyTongChiIsTotal | views/hospital_stats.py:88-100 | the total cost is the ninth cost field and the only one styled as a total |
| HospitalStats.FmtDiff | views/hospital_stats.py:168-188 | a dash iff either end is NULL or the difference is 0; otherwise the signed difference, with "+" iff positive |
| HospitalStats.DiffRawAntisymmetric | views/hospital_stats.py:191-203 | swapping the ends negates the raw difference |
| HospitalStats.PctChangeText | views/hospital_stats.py:159-165 | blank iff an end is 0; otherwise first × (1 + pct/100) = last, with "+" iff the change is positive |
| HospitalStats.FmtPctChange | views/hospital_stats.py:145-156 | a dash exactly where the text would be blank; otherwise the same signed change |
| CostByDept.RoundHalfEven | views/cost_by_dept.py:178-184 | within 0.5 of x, and even on a tie |
| CostByDept.CalcBq | views/cost_by_dept.py:178-184 | an average is shown iff the visits are non-zero and the amount is a non-zero number; it is amount / visits rounded half to even, so within 0.5 of the quotient |
| CostByDept.CalcRatio | views/cost_by_dept.py:187-197 | no ratio iff the denominator or numerator is missing or zero; a percentage satisfies x × den = num × 100, a decimal x × den = num |
| CostByDept.FmtNumber | views/cost_by_dept.py:169-175 | a number is shown iff it is a non-zero number, and the value shown is that number |
| CostByDept.MetricColumns | views/cost_by_dept.py:100-114 | one plain column per metric field, in order |
| CostByDept.AverageFields | views/cost_by_dept.py:118-122 | exactly the metric fields that have a BQ column |
| CostByDept.BqMetrics | views/cost_by_dept.py:118-122 | one "BQ <name>" column per averaged field, in order |
| CostByDept.FieldOfKeyRoundTrip | views/cost_by_dept.py:318-332 | every metric field's key looks up that field |
| CostByDept.FieldKeyInjective | views/cost_by_dept.py:318-332 | distinct fields have distinct keys |
| CostByDept.FieldOfOtherKey | views/cost_by_dept.py:318-332 | a key not starting with a metric key's letter finds nothing |
| CostByDept.ParseKeyRoundTrip | views/cost_by_dept.py:318-353 | every plain, BQ and ratio profile key parses back to itself |
| CostByDept.LookupColumn | views/cost_by_dept.py:318-353 | a profile key finds a column iff it parses as one of the three key kinds |
| CostByDept.DefaultColumnsMatchLookup | views/cost_by_dept.py:383-389 | each default column equals the lookup column of its key, except the two BHTT/BNTT averages, which differ only in name |
| CostByDept.DefaultKeysHaveAverages | views/cost_by_dept.py:383-389 | every averaged field has its BQ key among the defaults |
| CostByDept.GetActiveColumns | views/cost_by_dept.py:392-419 | with no profile or an empty one, the defaults; otherwise the selection from the profile |
| CostByDept.SelectColumns | views/cost_by_dept.py:404-419 | the loop's result is the profile selection |
| CostByDept.SelectedColumnsAppend | views/cost_by_dept.py:404-419 | the selection follows profile order |
| CostByDept.SelectedColumnsOfOne | views/cost_by_dept.py:404-419 | a hidden item or an unknown key contributes nothing; a visible known key contributes its column |
| CostByDept.SelectedColumnsFromVisible | views/cost_by_dept.py:404-419 | every selected column comes from a visible profile item |
| CostByDept.BqCellAgreesWithRawValue | views/cost_by_dept.py:200-219 | the BQ cell is blank iff its raw value is 0, and otherwise is the raw value rounded |
| CostByDept.RatioCellAgreesWithRawValue | views/cost_by_dept.py:200-219 | the ratio cell is blank iff its raw value is 0; a percentage cell is 100 × the raw value |
| CostByDept.DiffRawAntisymmetric | views/cost_by_dept.py:261-267 | swapping the ends negates the raw difference |
| CostByDept.FmtDiffShowsDiffRaw | views/cost_by_dept.py:241-258 | a dash iff the raw difference is 0; otherwise the raw difference, with "+" iff positive |
| CostByDept.FmtPctChange | views/cost_by_dept.py:222-238 | blank iff an end is missing or 0; "+" iff the change is positive |
| CostByDept.FmtPctChangeInverse | views/cost_by_dept.py:222-238 | first × (1 + pct/100) = last; for a positive first value, "+" iff last > first |
| CostByDept.LastMatchSnoc | views/cost_by_dept.py:444-456 | the row kept for a department is that of its last matching row |
| CostByDept.GroupDepartments | views/cost_by_dept.py:444-456 | a (kind, department) key is present iff the kind is known and some period has it; each slot is that period's last row for it, or none |
| CostByDept.AddPeriodRows | views/cost_by_dept.py:444-456 | one period's pass fills exactly its slot for every key and leaves the other periods' slots untouched |
| CostByDept.BeforeRespectsPositions | views/cost_by_dept.py:460-467 | configured departments come first, ordered by position; the rest follow in name order |
| CostByDept.BeforeIsStrictTotalOrder | views/cost_by_dept.py:460-467 | the sort key gives a strict total order on department names |
| CostByDept.SortDepartments | views/cost_by_dept.py:460-467 | the sorted list is a permutation of the departments |
| CostByDept.SortDepartmentsSorted | views/cost_by_dept.py:460-467 | distinct departments come out in sort-key order |
| CostByDept.SumRows | views/cost_by_dept.py:270-279 | each period's subtotal has every field, equal to the sum over departments present in that period |
| CostByDept.SumFieldSkipsMissing | views/cost_by_dept.py:270-279 | a department absent in a period adds nothing to that period's subtotal |
| CostByDept.SumFieldAppend | views/cost_by_dept.py:270-279 | subtotals over two department lists add |
| CostByDept.CombineTotals | views/cost_by_dept.py:708-716 | the combined totals have the keys of both sections, each the sum of the two values |
| CostByDept.GrandTotalCellIsCellOfCombined | views/cost_by_dept.py:718-724 | the grand-total cell is the cell computed from the combined totals |
| CostByDept.GrandTotalOverAllDepartments | views/cost_by_dept.py:708-716 | the grand total of a field is the sum over every department of both sections |
| CostByDept.MetricFieldsAreAllFields | views/cost_by_dept.py:100-114 | the metric list covers exactly the summed fields |
| IcdAnalysis.ShareField | views/icd_analysis.py:180-208 | the share is taken on visits iff the cost type is visits |
| IcdAnalysis.CostField | views/icd_analysis.py:180-208 | the average cost is on the BHYT-paid amount iff the cost type is BHYT, otherwise the total cost |
| IcdAnalysis.Pct | views/icd_analysis.py:180-208 | 0 for a zero total; otherwise pct × total = value × 100 |
| IcdAnalysis.ComputeRowValues | views/icd_analysis.py:180-208 | average days × visits = days and average cost × visits = cost (0 when no visits); the share is that of the chosen field in the period total |
| IcdAnalysis.ChosenIsTotalOfShareField | views/icd_analysis.py:225-237 | the period total used for shares is the frame sum of the share field |
| IcdAnalysis.PeriodTotals | views/icd_analysis.py:225-237 | one total per period, each the frame sums (0 for an empty period) |
| IcdAnalysis.ComputedValues | views/icd_analysis.py:363-376 | a period has values iff its lookup has the code with a non-empty row; those values are the row's computed values |
| IcdAnalysis.DiffCells | views/icd_analysis.py:379-409 | dashes iff an end is missing; the difference is last − first (reversed: first − last), and the percentage is relative to the base end |
| IcdAnalysis.DiffReverseNegates | views/icd_analysis.py:379-409 | reversing negates the difference |
| IcdAnalysis.RowDiff | views/icd_analysis.py:222-223 | there are no diff columns iff no metric is chosen or there are fewer than two periods; otherwise the diff of the first and last periods |
| IcdAnalysis.TotalValues | views/icd_analysis.py:413-445 | none iff the period has no data; otherwise share 100 and averages that are ratios of the frame totals |
| IcdAnalysis.TotalRowIsRowOfTotals | views/icd_analysis.py:413-445 | the total row equals the row computation applied to the frame's totals |
| IcdAnalysis.Shares | views/icd_analysis.py:1000-1011 | one share per group, each its chosen value as a percentage of the anchor total |
| IcdAnalysis.SharesSumTo100 | views/icd_analysis.py:1000-1011 | for a non-zero total, the shares add up to 100 |
| IcdAnalysis.SortDesc | views/icd_analysis.py:1011 | descending by share, and a permutation of the groups |
| IcdAnalysis.InsertDescSorted | views/icd_analysis.py:1011 | inserting into a descending list keeps it descending |
| IcdAnalysis.CumulativeHead | views/icd_analysis.py:1013-1020 | a prefix of the sorted codes whose running sums stay within the ratio; the loop stops only at the first code that would make the sum exceed the ratio |
| IcdAnalysis.LongestWithinThreshold | views/icd_analysis.py:1013-1020 | with non-negative shares, every longer prefix than the chosen one exceeds the ratio |
| IcdAnalysis.PrefixSumStep | views/icd_analysis.py:1017-1019 | the running sum after one more code is the previous sum plus that code's share |
| IcdAnalysis.HeadRuleUnique | views/icd_analysis.py:1013-1024 | the selection rule determines the code list: two lists that both follow it are equal |
| IcdAnalysis.IcdList | views/icd_analysis.py:1013-1024 | follows the selection rule: nothing without data; only the top code, with running share 0, when its share alone exceeds the ratio; otherwise the longest prefix of the sorted codes whose running sums all stay within the ratio, ending where one more code would exceed it, with its running share |
| IcdAnalysis.AnchorIndex | views/icd_analysis.py:988-998 | the first period whose label is the selected one, or period 0 |
| IcdAnalysis.SelectCodes | views/icd_analysis.py:988-1024 | no list iff the anchor period has no data; otherwise a non-empty prefix of its codes sorted by descending share, chosen by the selection rule |
| IcdAnalysis.RangeOf | views/icd_analysis.py:871-875 | a period's range is its pair of period keys |
| IcdAnalysis.ParseRangeText | views/icd_analysis.py:136-139 | "from-to" parses back to the range |
| IcdAnalysis.PeriodsKeyRoundTrip | views/icd_analysis.py:129-161 | the comma-joined key of a non-empty range list parses back to the list |
| IcdAnalysis.RangeClauses | views/icd_analysis.py:136-139 | the parsing loop computes the key's ranges |
| IcdAnalysis.AvailableKhoa | views/icd_analysis.py:129-161 | a department is offered iff some row in one of the ranges has it and passes the kind filter |
| IcdAnalysis.AvailableKhoaThroughKey | views/icd_analysis.py:871-876 | going through the cache key gives the departments of the selected periods themselves |
| Overview.PairLtTransitive | views/overview.py:66-67 | the (code, name) order is transitive |
| Overview.PairLtTotal | views/overview.py:66-67 | the (code, name) order is total on distinct pairs |
| Overview.Facilities | views/overview.py:66-67 | strictly sorted, and a pair is listed iff some row of the kind has it |
| Overview.Names | views/overview.py:107 | one column name per facility, its name, in order |
| Overview.SumInCovers | views/overview.py:71-96 | summing per listed facility covers every row of the kind |
| Overview.KindTotal | views/overview.py:71-96 | (corrected; see Findings) with each column summing its own (code, name) rows, a kind's total is the month sum of that kind |
| Overview.MonthRowTotals | views/overview.py:71-96 | (corrected; see Findings) a month line's kind totals are the month sums, and the grand total is their sum |
| Overview.KindCells | views/overview.py:78-84 | (corrected; see Findings) the loop fills one cell per (code, name) facility from that facility's own rows, and its total is the sum of the cells |
| Overview.MonthRows | views/overview.py:71-96 | twelve lines, each with one cell per facility of each kind |
| Overview.MonthRowsTotals | views/overview.py:71-96 | (corrected; see Findings) line m−1 is labelled Tm, and its totals are the month sums |
| Overview.YearRowGrandTotal | views/overview.py:100-105 | the year line's grand total is the sum of its two kind totals |
| Overview.BuildPivot | views/overview.py:57-107 | (corrected; see Findings) no rows for no data; otherwise 13 rows, each month's totals are its month sums, the year line sums the months, and the column names follow the sorted facilities |
| Overview.AsWrittenDoubleCounts | views/overview.py:78-82 | as written, a code listed under two names makes the month total 20 where the month sum is 10 |
| Upload.Strptime | upload_to_bigquery.py:87-95 | a match yields one piece per directive |
| Upload.ToDateTime | upload_to_bigquery.py:87-95 | a result is a valid calendar date-time built from the pieces' values |
| Upload.ParseDateInt | upload_to_bigquery.py:87-95 | a result is always a valid date; NULL gives none |
| Upload.ParseDateIntRoundTrip | upload_to_bigquery.py:87-95 | the integer YYYYMMDD of a date with a four-digit year parses back to it |
| Upload.ParseDateIntSevenDigits | upload_to_bigquery.py:87-95 | 2024115 is accepted and read as 2024-11-05 |
| Upload.StripLeft | upload_to_bigquery.py:101 | the result does not start with a stripped character |
| Upload.Clean | upload_to_bigquery.py:101 | after stripping, the text does not start with a quote |
| Upload.ParseDatetimeStr | upload_to_bigquery.py:98-112 | a result is always valid; NULL or a cleaned length other than 8, 12 or 14 gives none |
| Upload.ParseDatetimeStrRoundTrip | upload_to_bigquery.py:98-112 | the 8-, 12- or 14-digit text of a date-time, with or without a leading quote, parses back to it |
| Upload.DuplicateRowsMembers | upload_to_bigquery.py:254-275 | a row is reported iff it is in the upload, has a facility and a patient id, and its key, missing kind or times included, is found remotely |
| Upload.MissingTimeMatchesMissing | upload_to_bigquery.py:260-274 | a row with a missing discharge time is reported when the table holds the same key with a missing discharge time |
| Upload.MissingFacilityNeverDuplicate | upload_to_bigquery.py:254-274 | a row with a missing facility id is never reported |
| Upload.PatientIds | upload_to_bigquery.py:216-218 | distinct, and an id is listed iff some row has it |
| Upload.Batches | upload_to_bigquery.py:221-241 | the batches concatenate to the id list, each holds 1..5000 ids, and there are ceil(n/5000) of them |
| Upload.QueryBatch | upload_to_bigquery.py:225-239 | a batch query returns exactly the remote keys whose patient id is in the batch |
| Upload.FetchKeys | upload_to_bigquery.py:221-241 | the fetched keys are exactly the remote keys of the upload's patients |
| Upload.FetchedSuffices | upload_to_bigquery.py:221-275 | judging against the fetched keys gives the same duplicates as judging against the whole table |
| Upload.CheckDuplicates | upload_to_bigquery.py:202-275 | no duplicates when the table is missing; otherwise exactly the rows with both ids whose key, missing kind or times included, is in the remote table |
| Upload.NoIdsNoDuplicates | upload_to_bigquery.py:216-218 | an upload without patient ids has no duplicates |
| Upload.NoKeysNoDuplicates | upload_to_bigquery.py:243-249 | an empty remote result gives no duplicates |
| Upload.KeepNewPartition | upload_to_bigquery.py:384-385 | the kept rows and the duplicates partition the upload (as multisets); a row is kept iff it is not a duplicate |
| Pagination.TotalPages | tw_components.py:807 | at least 1; exactly 1 for no rows; otherwise (n−1) × size < rows <= n × size |
| Pagination.ClampPage | tw_components.py:809-813 | a valid page index: unchanged when in range, the last page when past it, 0 when negative |
| Pagination.ViewOf | tw_components.py:850-864 | the indicator and button states of the page; the caption's rows lie within the table |
| Pagination.CaptionMatchesSlice | tw_components.py:852-864 | the caption's row range is exactly the rows of the page slice |
| Pagination.PagesCoverRows | tw_components.py:862-864 | paging through every page shows each row once, in order |
| Pagination.Pager.constructor | tw_components.py:800-804 | the first pass stores the default size and page 0 |
| Pagination.Pager.Clamp | tw_components.py:806-813 | the stored page becomes the clamped index, and the size is unchanged |
| Pagination.Pager.Show | tw_components.py:787-864 | nothing for an empty table; otherwise the clamped page's view and its slice |
| Pagination.Pager.SelectSize | tw_components.py:828-831 | a new size is stored and resets to page 0; the same size changes nothing |
| Pagination.PreselectedSize | tw_components.py:821-825 | the box shows the stored size when it is offered, otherwise the first option |
| Pagination.Pager.KeepShownSize | tw_components.py:820-831 | left alone, the box keeps an offered size and page; a size not offered becomes the first option, at page 0 |
| Pagination.Pager.Prev | tw_components.py:834-836 | one page back, or no change on the first page |
| Pagination.Pager.Next | tw_components.py:847-849 | one page forward, or no change on the last page |
| Pagination.DefaultAligns | tw_components.py:667-668 | the first column is centred and the rest right-aligned, one code per column (at least one) |
| Pagination.AlignOf | tw_components.py:670 | left iff "l", centre iff "c", right otherwise |
| Pagination.CellAlign | tw_components.py:697 | without a list: centre for the first column, right for the rest; past the end of a list: right |

## Left out

- BigQuery, the Streamlit widgets and reruns, the session store as a whole, caching, authentication, settings pages and the lookup-table upload: these are I/O. Each query is modelled by its reference semantics over a list of view rows, and each page by the computation it performs on the query result.
- HTML and Excel rendering, colours, thousands separators and the number of decimals shown: formatting only. The cells are modelled as the values they display (for example, `Shown.Signed(plus, x)` for "+x").
- Floating point: all amounts are exact reals. Rounding is modelled only where the code rounds to an integer (`round()`, half-even); NaN appears only as a `Cell` variant where the code tests for it.
- `Upload.Strptime`: ASCII digits and whitespace only. Locale, Unicode digits and directives other than `%Y%m%d%H%M%S` are not modelled.
- `Upload.CheckDuplicates`: the `astype(str)`, `to_numeric` and `to_datetime` normalisation of the key columns is modelled only through its effect on missing values: a missing facility or patient id never matches, and a missing kind or time matches a missing remote one. Other conversions (an id stored remotely as a number, a time that `to_datetime` reads differently) are treated as the identity.
- The transformation of the uploaded spreadsheet (`transform_dataframe`), the interactive `input()` prompt, choices 0, 2 and 3 (abort, upload all, delete the old rows) and the `len(df) == 0` exit: I/O and control flow outside the duplicate logic. Choice 1 is modelled by `Upload.KeepNewPartition`.
- `IcdAnalysis.SortDesc`: pandas' sort is not stable, so the model fixes one descending order (insertion order among equal shares). Its properties hold for every descending permutation.
- `IcdAnalysis.AvailableKhoa`: returned as a set; the alphabetical sort of the list shown is not modelled.
- `Overview.KindCells`: the code stores each cell under the key "kind|name", so two facilities with different codes but the same name share one column (the later write wins, while the kind total still adds both values, and the year line sums the shared column). The model keeps one column per (code, name) pair and does not capture this merging.
- `Overview.BuildPivot`: `sorted` compares two (code, name) pairs' names only when their codes are equal. It raises `TypeError` when one code is listed both with a NULL name and with a string name, or when a NULL code is compared with a string code. The model's codes and names are always strings, so this failure is not modelled.
- The "all" options of the kind and department filters are modelled as `None`.
- `Pagination.Pager.Clamp`: requires a positive page size. The code would raise `ZeroDivisionError` for size 0, which the select box never offers.
- `Pagination.Pager.Show`: an empty table returns before the session keys are initialised. The model creates the keys in the constructor instead.
- The Excel export of the department page computes the grand-total average from the combined totals in a separate loop (views/cost_by_dept.py:1025). Only the on-screen path (`CostByDept.GrandTotalCellIsCellOfCombined`) is modelled.
- `HospitalStats.FmtDiff`: the choice between an integer and a one-decimal rendering of the magnitude is formatting and is not modelled.
- The period colour palette and year/month option lists (`_get_available_year_months`, `_get_years`, `_get_months_for_year`): presentation and queries.
- The department order table (`_load_khoa_order`) is an input map; how it is read from BigQuery is not modelled.

## Findings

| source | as written | input that shows it | evidently intended | confidence | as-written member | corrected member |
|---|---|---|---|---|---|---|
| views/overview.py:78-82 | each (code, name) column sums every row of the month with that facility code, and the kind total adds the columns | outpatient rows (month 1, code "A", name "X", 10 visits) and (month 2, code "A", name "Y", 20 visits): in month 1 both columns show 10 and the outpatient total shows 20 | each column sums its own (code, name) rows, so a kind total equals that kind's month sum | not executed | Overview.AsWrittenDoubleCounts | Overview.BuildPivot |
