# January arrear collection challenge — a Dafny model

The script `jan.py` reads a loan sheet and shows a table with one row per branch. To build the table it does the following:

1. **Load.** It normalises the sheet's numeric columns. Missing and unparsable amounts become 0. When the two total columns are missing, it derives them from the amounts.
2. **Filter.** It keeps the loans that mature between 1 and 21 January 2026, both days included. It drops the loans of "Advans Branch"; this comparison ignores surrounding whitespace and letter case.
3. **Group.** It sums the expected and the realised repayment of the remaining loans per branch.
4. **Add columns.** It adds three columns:
   - "Collected by 21", a fixed amount per branch, looked up in a table;
   - "Arrears collected", the repayment above that amount, clipped at 0;
   - "Commission (3%)", 3% of the arrears.
5. **Format.** It overwrites the five amount columns with currency text such as `Ksh 1,234,567`.

The model has one module per stage:

| module | file | what it holds |
|---|---|---|
| `Records` | `records.dfy` | the sheet, its rows and the normalised loan record |
| `Text` | `text.dfy` | `str.strip` and the lower-casing used by the comparison |
| `Loader` | `loader.dfy` | `load_data` |
| `Selection` | `selection.dfy` | the two boolean-mask filters |
| `Aggregation` | `aggregation.dfy` | the group-by sum |
| `Arrears` | `arrears.dfy` | the lookup table, the clip and the commission |
| `Currency` | `currency.dfy` | the `f"Ksh {x:,.0f}"` cell |
| `Report` | `report.dfy` | the table object and the whole script |

How the source's forms are carried over:

- `load_data` changes its frame column by column, so it is a method with a loop. It is proved equal to a row-wise reference, `Loader.Normalise`.
- `expected_by_branch` is a class, `Report.BranchTable`. Its methods add columns to its map of columns, and `FormatCurrency` overwrites them in a loop.
- `Report.RunReport` runs the whole script. It is proved to produce exactly the formatted report of the selected, grouped loans.

## Model

| member | source | states |
|---|---|---|
| Loader.LoadData | jan.py:18-35 | the loop over the three amount columns, then the two total columns, yields exactly the row-wise normalisation of the sheet: one loan per row, in order |
| Loader.Normalise | jan.py:18-35 | the row-wise reference for load_data: one loan per row, in row order; NormaliseKeepsRows, MissingOrUnparsableIsZero and DerivedTotals state what each loan holds |
| Loader.NormaliseRow | jan.py:18-35 | one row of load_data; MissingOrUnparsableIsZero and DerivedTotals state each of its amounts |
| Loader.HasColumn | jan.py:10-30 | the presence test of a column on the stripped headers; PaddedHeaderIsFound states that padding around a header does not hide it |
| Loader.PaddedHeaderIsFound | jan.py:10-30 | a header holding a column's name with whitespace around it still counts as that column |
| Loader.MissingOrUnparsableIsZero | jan.py:18-21 | a missing amount column reads as 0; an unparsable cell reads as 0; a parsed cell keeps its value |
| Loader.DerivedTotals | jan.py:23-31 | without its own column, the expected repayment is principal plus penalties; without its own column, the repayment is principal minus outstanding |
| Loader.NormaliseKeepsRows | jan.py:18-35 | normalising keeps every row, with its branch and maturity date unchanged; no row is dropped for a bad number |
| Text.TrimIgnoresPadding | jan.py:10 | whitespace around a name never changes what it strips to |
| Text.TrimIsSlice | jan.py:10 | a stripped string is one contiguous slice of the original that neither starts nor ends with whitespace; only whitespace is dropped around it |
| Text.TrimIdempotent | jan.py:80 | stripping an already stripped name changes nothing |
| Text.Trim | jan.py:10 | `str.strip` over Python's whitespace set: the result is no longer than the input and neither starts nor ends with whitespace; TrimIsSlice states it fully |
| Text.LowerAscii | jan.py:53 | the lower-casing of the exclusion test keeps the length; TrimLower shows it commutes with stripping |
| Text.TrimLower | jan.py:53 | stripping and lower-casing a name can be done in either order |
| Selection.InWindowExactly | jan.py:45-48 | a maturity date passes the window test exactly when it is a day from 1 to 21 January 2026; an unparsed date never passes |
| Selection.InWindow | jan.py:45-48 | the window test of a maturity date; InWindowExactly states which dates pass |
| Selection.WindowBoundaries | jan.py:45-48 | both boundary days are inside the window; 31 December and 22 January are outside |
| Selection.FilterTwice | jan.py:45-53 | applying the window mask and then the branch mask selects the same rows as one mask requiring both |
| Selection.Filter | jan.py:45-53 | boolean-mask selection: no more rows than the input, each satisfying the mask; FilterSpec adds that it keeps order and exactly the satisfying rows |
| Selection.Selected | jan.py:45-53 | the rows left by both masks; SelectedSpec and SelectedMembers state exactly which |
| Selection.IsExcluded | jan.py:53 | the Advans test on the stripped, lower-cased name; ExclusionIgnoresPadding and ExclusionIgnoresCase state its invariance |
| Selection.SelectedSpec | jan.py:45-53 | the selected loans keep their order; each loan that passes both tests is kept as often as it occurs, and no other loan is kept |
| Selection.SelectedMembers | jan.py:45-53 | a loan is selected if and only if it is in the sheet, matures in the window and its branch is not excluded |
| Selection.ExclusionIgnoresPadding | jan.py:53 | surrounding whitespace does not change whether a branch is excluded |
| Selection.ExclusionIgnoresCase | jan.py:53 | the case of a branch name does not change whether it is excluded |
| Selection.PaddedUpperCaseIsExcluded | jan.py:53 | " ADVANS BRANCH " is excluded |
| Selection.OtherBranchIsKept | jan.py:53 | "Kiambu Branch" is not excluded |
| Aggregation.AccumulateBranchTotals | jan.py:58-62 | adding one loan to the groups adds its amounts to its own branch's totals and to no other branch's |
| Aggregation.GroupByBranch | jan.py:58-64 | the group-by has no more rows than loans; GroupByBranchSpec states its keys and sums |
| Aggregation.GroupByBranchSpec | jan.py:58-64 | the group-by gives one row per distinct branch of the selected loans and no other; each row holds exactly the sums over its branch's loans; together the rows hold the sums over all loans |
| Arrears.CollectedBy21 | jan.py:69-81 | the amount is the table entry for the stripped branch name; it is 0 exactly when the name is not in the table; it is never negative |
| Arrears.CollectedIgnoresPadding | jan.py:79-81 | the lookup is on the stripped name, so padding around the branch name does not change it |
| Arrears.ArrearsCollected | jan.py:87-90 | arrears are never negative and never below repayment minus collected; they are either 0 or that difference |
| Arrears.ReportRow | jan.py:79-97 | a group's report row keeps its branch and two totals; collected is the table lookup of the branch; arrears are not negative, at least repayment minus collected, and either 0 or exactly that difference; commission is 3% of the arrears and lies between 0 and them |
| Arrears.UnlistedBranchArrears | jan.py:79-90 | a branch missing from the table shows 0 collected; a non-negative repayment becomes its arrears in full |
| Arrears.CollectedAtLeastRepaid | jan.py:87-97 | a branch that already collected at least its repayment shows no arrears and no commission |
| Arrears.KawangwareExample | jan.py:69-90 | Kawangware, with 1,000,000 repaid against 1,148,531 already collected, shows 0 arrears |
| Arrears.Commission | jan.py:95-97 | the commission is exactly 3% of the arrears; for non-negative arrears it lies between 0 and the arrears |
| Arrears.CommissionMonotone | jan.py:95-97 | larger arrears never earn a smaller commission |
| Arrears.CommissionOfTotal | jan.py:87-97 | summed over the report, the commissions are 3% of the summed arrears, and the summed arrears are not negative |
| Currency.Digits | jan.py:109 | the decimal digits of a whole number are a non-empty string of digits with no leading zero |
| Currency.DigitsRoundTrip | jan.py:109 | reading back the decimal digits of n gives n |
| Currency.StripInsertCommas | jan.py:109 | removing the thousands separators gives back the digits |
| Currency.InsertCommasWellGrouped | jan.py:109 | separators stand exactly at every fourth place from the right; the first group has one to three digits |
| Currency.GroupedSpec | jan.py:109 | the grouped form of n is well grouped and, without its commas, is the decimal form of n, which reads back as n |
| Currency.RoundHalfEven | jan.py:109 | rounding to zero decimals lands within one half of the amount; a tie goes to the even number; a non-negative amount never rounds below 0 |
| Currency.RoundWhole | jan.py:109 | a whole amount is its own rounding |
| Currency.FormatParseRoundTrip | jan.py:109 | every whole amount, negative ones included, reads back from its "Ksh" cell |
| Currency.FormatKsh | jan.py:109 | one currency cell; FormatReadsBack states what it reads back as |
| Currency.FormatReadsBack | jan.py:109 | every cell reads back as the amount rounded half to even, with the amount's sign |
| Currency.FormatExample | jan.py:109 | 1234567 is written "Ksh 1,234,567" |
| Report.CommissionCellExample | jan.py:95-109 | arrears of 500,000 show a commission cell "Ksh 15,000" |
| Report.BranchTable.FromGroups | jan.py:58-64 | the table starts from the group rows: branch names, the renamed expected total and the repayment total |
| Report.BranchTable.AddCollectedBy21 | jan.py:79-81 | adds the "Collected by 21" column for the table's own branches; nothing else changes |
| Report.BranchTable.AddArrears | jan.py:87-90 | adds "Arrears collected", computed row by row from the two current columns; nothing else changes |
| Report.BranchTable.AddCommission | jan.py:95-97 | adds "Commission (3%)", computed from the arrears column; nothing else changes |
| Report.BranchTable.FormatCurrency | jan.py:102-109 | each of the five amount columns is replaced by the currency text of its own old numbers; the branches and the row count stay |
| Report.ReportColumns | jan.py:79-109 | the columns built one after another by the table are, once formatted, the report rows of the groups rendered as currency text |
| Report.CollectedColumnOf | jan.py:79-81 | the lookup column, one amount per branch; CollectedColumnMatches states it is the collected amount of each report row |
| Report.CollectedColumnMatches | jan.py:79-81 | the lookup column over the group names is the collected amount of each report row, in order |
| Report.ArrearsColumnOf | jan.py:87-90 | the clipped difference column, one amount per row; ArrearsColumnMatches states it is the arrears of each report row |
| Report.ArrearsColumnMatches | jan.py:87-90 | the clipped difference of the repayment and lookup columns is the arrears of each report row, in order |
| Report.CommissionColumnOf | jan.py:95-97 | the 3% column, one amount per row; CommissionColumnMatches states it is the commission of each report row |
| Report.CommissionColumnMatches | jan.py:95-97 | 3% of the arrears column is the commission of each report row, in order |
| Report.FormatColumn | jan.py:109 | the currency text of a column, one cell per amount; FormatCurrency's ensures applies it to each amount column, and Currency.FormatReadsBack states what each cell reads back as |
| Report.RunReport | jan.py:40-109 | the script yields a table with one row per branch of the grouped selected loans; its columns are exactly the formatted report of the sheet |

## Left out

- The Streamlit page: configuration, title, the cache and the display of the table. These are I/O only.
- Reading the Excel file. The parsed sheet is the input: its headers and, per row, the branch name, the maturity date and the five raw amounts.
- The date parser and the number parser. A `pd.to_datetime` result with `dayfirst=True` and `errors="coerce"` is given as an optional date. A `pd.to_numeric` result with `errors="coerce"` is given as an optional number, where "none" stands for NaN.
- Times of day. Maturities are whole days, so a timestamp later in the day of 21 January, which the source drops, is not represented.
- Floating point. Amounts are exact reals. Sums, the 3% product and the rounding are exact. The model does not show the rounding errors of IEEE doubles, NaN, infinities or the sign of -0.0.
- Currency.FormatKsh: rounds the exact value half to even. Python rounds the binary double's exact value the same way, so the two differ only where the double's value differs from the decimal one.
- Aggregation.GroupByBranchSpec: does not state the row order. pandas sorts the group keys; the model lists branches in order of first appearance. It promises distinct keys, the exact key set and the per-branch sums.
- Group keys that are missing values. pandas drops them; here every branch name is a string.
- Non-string branch cells and `astype(str)`.
- Missing "Branch Name" or "Expected Matured On Date" columns. The source fails on them with a KeyError.
- Two headers that become equal once stripped.
- Text.LowerAscii: lower-cases ASCII letters only. Python's `str.lower` turns no other character into one of the letters of "advans branch", so the exclusion test gives the same answer. The excluded name is compared after `str.lower`, not after full case folding, as the code does.
