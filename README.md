# Expense tracker core, modelled in Dafny

This project models the logic of a small expense-tracker web application: the
CSV import route (upload checks, the `parseCSV` line tokenizer, header
normalisation and the required-column check, the per-row validation loop with
its first-failure-wins messages, the partial-success outcome policy, and the
page's five-row preview), the add-expense route's server-side validation, the
filter dialog of the expense list (its state, the reset effect, `applyFilters`,
`clearFilters` and the rule that disables Apply), the pie chart's data
(category totals, grand total, top five, colours and the two "No data"
guards), and the analytics panel's figures (distinct years, per-year and
per-month totals handed to pie charts, summary totals).

The modules follow the program:

- `Csv`: the `parseCSV` tokenizer, as a loop and as a fold.
- `ImportHeader`: header normalisation and missing columns.
- `DateText`: the three date patterns of the import and their rewrite.
- `ImportRows`: the row loop.
- `ImportSheet`: the route's `action` and `previewFile`.
- `AddExpense`: the add route's `action`.
- `FilterDialog`: the dialog's state and filters.
- `PieChart`: the pie chart's data.
- `Analytics`: the analytics panel.
- Small shared modules:
  - `Text`: JavaScript `trim`, `split` and decimal text.
  - `Calendar`: `Date` values through their local calendar fields.
  - `JsHost`: the `parseFloat` and `new Date(text)` parsers, as parameters.
  - `Store`: the database as a sink that records each insert.
  - `Expenses`, `Seqs` and `Wrappers`.

State the source changes in place is modelled imperatively:

- `ImportPage.PreviewFile` fills the preview fields.
- `Dialog` holds the three pieces of component state.
- `ExpenseStore` records `create`/`createMany` calls.
- `CategoryTotals` updates a dictionary in a loop.

Loops in the source are `while` loops proved against a specification function:

- `ParseCsv` against `Tokenize`.
- `ProcessRows` against `AcceptedOf`/`ErrorsOf`.
- `PreviewFile` against `PreviewText`.

Where the code and the intended behaviour could be read differently, the model follows the code:

- Blank lines are dropped before data rows are numbered. An error's "Row n" is therefore the position among the non-blank lines, plus one for the header, not the line number in the file.
- `'` as well as `"` is removed from every header and every value.
- On the add form, a non-empty date text that does not parse raises no error, because an Invalid Date compares false with anything.
- The "this-month" and "this-year" filters end at midnight that starts the last day of the range (the month's last day, or December 31). An expense later on that day is left out.

## Model

| member | source | states |
|---|---|---|
| Csv.Tokenize | app/routes/importsheet.tsx:50-69 | definition: `parseCSV` as a fold of the per-character step; properties in ParseCsv, TokenizeFieldCount, TokenizeFieldsClean and TokenizeEncodeLine |
| Csv.ParseCsv | app/routes/importsheet.tsx:50-69 | the character loop returns exactly the tokenizer's fold; one field per comma outside quotes plus one; every field trimmed and free of `"` |
| Csv.ScanCounts | app/routes/importsheet.tsx:55-66 | after any prefix a quote is open iff an odd number of `"` was read, and one field was pushed per unquoted comma |
| Csv.TokenizeFieldCount | app/routes/importsheet.tsx:50-69 | `parseCSV` yields 1 + (number of commas outside quotes) fields; the empty line yields one field |
| Csv.TokenizeFieldsClean | app/routes/importsheet.tsx:50-69 | no returned field contains `"` and every field is trimmed |
| Csv.TokenizeEncodeLine | app/routes/importsheet.tsx:50-69 | cells laid out as a line (quoted cells may hold commas) tokenize back to their trimmed texts, one field per cell |
| Text.StripQuoteMarks | app/routes/importsheet.tsx:71 | `replace(/['"]/g, '')` keeps exactly the characters that are not quote marks, in order; a quote-free text is unchanged |
| ImportHeader.NormalizeHeader | app/routes/importsheet.tsx:71 | the header name is the token's characters lower-cased, without quote marks, in order; it has no quote mark and no upper-case ASCII letter; a token already in that form is its own name |
| ImportHeader.NormalizeHeaderIdempotent | app/routes/importsheet.tsx:71 | normalising a header name again changes nothing |
| ImportHeader.QuotedHeader | app/routes/importsheet.tsx:71 | a token wrapped in `'` or `"` has the same header name as the bare token |
| ImportHeader.HeaderIgnoresCase | app/routes/importsheet.tsx:71 | lower-casing a token first does not change its header name |
| ImportHeader.Headers | app/routes/importsheet.tsx:71 | definition: the header line tokenized, each token normalised; properties in NormalizeHeader |
| ImportHeader.MissingColumns | app/routes/importsheet.tsx:75-76 | exactly the required columns absent from the headers, in the order description, amount, category, date; empty iff all four are present |
| ImportHeader.MissingColumnsExact | app/routes/importsheet.tsx:75-82 | two header lists holding the same names (any order, any repeats) miss the same columns; extra columns never make any column missing, column by column; every absent required name is reported |
| DateText.DateQuery | app/routes/importsheet.tsx:131-141 | definition: the text handed to `new Date`; properties in DateQueryForms, ReorderIsIso and the round-trip lemmas |
| DateText.DateQueryForms | app/routes/importsheet.tsx:131-141 | an ISO text is handed to `new Date` as is, a slash date becomes its year-month-day reordering, which is ISO-shaped, anything else is handed over unchanged |
| DateText.ReorderIsIso | app/routes/importsheet.tsx:133-138 | the rewrite of `M/D/YYYY` or `MM/DD/YYYY` is `YYYY-MM-DD` with the same year, month and day numbers |
| DateText.PaddedSlashIsSlash | app/routes/importsheet.tsx:131-138 | every two-digit slash date also matches the one-or-two-digit pattern, and both branches rewrite alike |
| DateText.PadTwoValue | app/routes/importsheet.tsx:135 | `padStart(2, '0')` keeps the number a one- or two-digit text denotes |
| DateText.ReorderSlashOf | app/routes/importsheet.tsx:133-135 | an ISO date written as `MM/DD/YYYY` is rewritten back to itself |
| DateText.SlashOfReorder | app/routes/importsheet.tsx:133-135 | a `MM/DD/YYYY` date rewritten to ISO and written back is unchanged |
| ImportRows.LastIndex | app/routes/importsheet.tsx:97-100 | `row[name]` comes from the last header of that name |
| ImportRows.Field | app/routes/importsheet.tsx:97-100 | `row[name]` is the value under the last header of that name with its quote marks removed (unchanged when it has none), or empty when the line has no value there |
| ImportRows.FirstFailure | app/routes/importsheet.tsx:92-150 | None iff every check passes; otherwise the earliest failing check's reason |
| ImportRows.CheckRow | app/routes/importsheet.tsx:92-157 | an accepted row yields a trimmed non-empty description and category, a positive amount from `parseFloat`, and a valid date from the rewritten date text |
| ImportRows.CheckRowFirstFailure | app/routes/importsheet.tsx:92-150 | a row is rejected iff some check fails, with the reason of the earliest in the order column count, description, amount, category, date |
| ImportRows.AcceptedOf | app/routes/importsheet.tsx:88-158 | definition: the expenses of the accepted rows, in order; properties in ProcessRows, RowsPartition, CollectedPrefix and RowOutcomeAt |
| ImportRows.ErrorsOf | app/routes/importsheet.tsx:88-158 | definition: the messages of the rejected rows, numbered from 2, in order; properties in ProcessRows, RowsPartition, CollectedPrefix and RowOutcomeAt |
| ImportRows.ProcessRows | app/routes/importsheet.tsx:88-158 | the loop collects exactly the accepted rows' expenses and the rejected rows' messages, in row order; the two counts add up to the number of data rows |
| ImportRows.RowsPartition | app/routes/importsheet.tsx:88-158 | every data row yields exactly one expense or one error |
| ImportRows.ImportedExpensesValid | app/routes/importsheet.tsx:103-157 | every collected expense passed every check |
| ImportRows.CollectedPrefix | app/routes/importsheet.tsx:88-158 | what is collected after the first j rows is a prefix of what is collected in all |
| ImportRows.RowOutcomeAt | app/routes/importsheet.tsx:88-158 | data row j (reported as row j + 2) lands at the position counting the earlier expenses, or the earlier errors |
| ImportSheet.Lines | app/routes/importsheet.tsx:43 | definition: the newline-separated pieces filtered by `trim()`; properties in LinesNonBlank |
| ImportSheet.LinesNonBlank | app/routes/importsheet.tsx:43 | the kept lines are exactly the non-blank pieces between newlines: every kept line is such a piece, every such piece is kept as often as it occurs, and their order is the text's |
| ImportSheet.Settle | app/routes/importsheet.tsx:160-176 | no valid row and some error: failure with every error and no insert; otherwise one batch of exactly the valid rows, `imported` its size (at least one), `errors` absent when no row failed and otherwise exactly the row errors in row order |
| ImportSheet.ImportText | app/routes/importsheet.tsx:42-176 | status 200; fewer than two non-blank lines fails with its message; a reply is a success iff a batch is inserted |
| ImportSheet.ImportedBatchValid | app/routes/importsheet.tsx:84-176 | every inserted expense passed all row checks, and a success imports at least one |
| ImportSheet.ImportOutcomeRules | app/routes/importsheet.tsx:160-176 | past the header check, the outcome is the partial-success policy over the rows, and expenses + errors = data rows |
| ImportSheet.MissingColumnsAbort | app/routes/importsheet.tsx:75-82 | missing columns end the import with a message naming exactly them, and nothing is inserted |
| ImportSheet.HandleAction | app/routes/importsheet.tsx:17-182 | definition: the action's outcome for a method and an optional upload; properties in ActionGuards, AllowList and ImportOutcomeRules |
| ImportSheet.ActionGuards | app/routes/importsheet.tsx:17-39 | non-POST gets 405; no file and a refused file get their messages; none inserts; a batch is only inserted for a POST of an allowed file |
| ImportSheet.AllowList | app/routes/importsheet.tsx:31-39 | a listed media type passes whatever the name, a `.csv` name passes whatever the type, an unlisted `.xlsx` upload is refused |
| ImportSheet.Action | app/routes/importsheet.tsx:17-182 | the reply is the outcome's reply, and the store receives one `createMany` with the batch when there is one and nothing otherwise |
| ImportSheet.OrNA | app/routes/importsheet.tsx:249-252 | `x \|\| 'N/A'`: never empty, unchanged when non-empty, trimmed when its input is |
| ImportSheet.PreviewOfRow | app/routes/importsheet.tsx:242-253 | each cell shows its column's value (description, category and date trimmed, the amount as written), or "N/A" when that is empty |
| ImportSheet.PreviewOfAcceptedRow | app/routes/importsheet.tsx:242-253 | for a row the import accepts, the preview shows the stored description and category, the date text the stored date comes from, and (for a non-empty amount cell) the text the stored amount is parsed from |
| ImportSheet.PreviewLines | app/routes/importsheet.tsx:238 | `lines.slice(1, 6)`: at most five data lines, in order |
| ImportSheet.PreviewRowsAt | app/routes/importsheet.tsx:240-254 | preview row k is data line k shaped for display |
| ImportSheet.PreviewMatchesImport | app/routes/importsheet.tsx:215-260 | the preview fails iff the import fails before any row (too few lines, missing columns), and then nothing is inserted; otherwise it shows 1 to 5 rows, row k from data line k |
| ImportSheet.ImportPage.constructor | app/routes/importsheet.tsx:189-190 | the preview starts empty with no error |
| ImportSheet.ImportPage.PreviewFile | app/routes/importsheet.tsx:215-260 | the fields end as the preview prescribes: the error with no rows, or the rows with no error |
| Store.ExpenseStore.CreateMany | app/routes/importsheet.tsx:167-169 | one call appends one batch |
| Store.ExpenseStore.Create | app/routes/add.tsx:65-72 | one call appends a batch of one |
| Calendar.LastDayOfMonth | app/components/FilterDialog.tsx:63 | `new Date(y, m + 1, 0)`: midnight starting the month's last day, which is day 28 to 31 by the leap-year rule |
| Calendar.EndOfDay | app/components/FilterDialog.tsx:91 | `setHours(23, 59, 59, 999)`: the same calendar day, at its last millisecond |
| Calendar.AtOrBeforeEndOfDay | app/routes/add.tsx:47-51 | at or before 23:59:59.999 of a day means on that calendar day or earlier |
| AddExpense.ErrorsOf | app/routes/add.tsx:28-54 | definition: each error key set by its own check; properties in ErrorConditions, ChecksIndependent and AcceptedForm |
| AddExpense.Validate | app/routes/add.tsx:28-54 | the error record filled key by key equals the four independent checks |
| AddExpense.ErrorConditions | app/routes/add.tsx:30-54 | each message is set exactly under its condition; the two amount messages exclude each other; the future-date message iff the date parses to a later calendar day |
| AddExpense.ChecksIndependent | app/routes/add.tsx:28-54 | each error key depends on its own form entry only |
| AddExpense.EmptyFormAllErrors | app/routes/add.tsx:28-54 | an empty submission reports all four errors at once |
| AddExpense.LenientFields | app/routes/add.tsx:30-53 | any non-empty category made only of whitespace raises no error (while such a description does), and any non-empty date text that does not parse raises no error |
| AddExpense.AcceptedForm | app/routes/add.tsx:28-72 | an accepted form has every entry, a non-blank description, a positive amount and a date not after today |
| AddExpense.Action | app/routes/add.tsx:20-75 | 400 with the errors and the submitted values and no write iff some check fails; otherwise one `create` of the trimmed record and a redirect to "/" |
| FilterDialog.Between | app/components/FilterDialog.tsx:93-96 | an order-preserving subsequence holding exactly the expenses whose parsed date lies in the inclusive range, each as often as in the input |
| FilterDialog.ApplyFilters | app/components/FilterDialog.tsx:47-114 | the filtered list is always an order-preserving subsequence of the expenses |
| FilterDialog.SummaryText | app/components/FilterDialog.tsx:47-110 | the fixed summary texts; the month and the custom range are locale-formatted and have none |
| FilterDialog.AllKeepsEverything | app/components/FilterDialog.tsx:55-59 | "all" and any unknown type hand on the whole list with "All Expenses" |
| FilterDialog.ThisMonthKeeps | app/components/FilterDialog.tsx:61-72 | kept iff the date parses, is in the current month, and is no later than midnight starting its last day |
| FilterDialog.ThisYearKeeps | app/components/FilterDialog.tsx:74-84 | kept iff the date parses, is in the current year, and is not later than midnight starting December 31; summary "Year y" |
| FilterDialog.CustomKeeps | app/components/FilterDialog.tsx:86-99 | with both dates parsed, kept iff at or after the from date and on the to date's day or earlier |
| FilterDialog.CustomEdges | app/components/FilterDialog.tsx:86-105 | a missing custom date keeps everything with "Custom dates not set"; an unparseable one keeps nothing |
| FilterDialog.ApplyDisabled | app/components/FilterDialog.tsx:288-291 | definition: the button's `disabled` expression; properties in ApplyEnabled |
| FilterDialog.ApplyEnabled | app/components/FilterDialog.tsx:288-291 | Apply is enabled for every type but "custom"; for "custom" it is enabled iff both dates are set and, when both parse, the from date is not after the to date |
| FilterDialog.EnabledRangeKeepsFromDay | app/components/FilterDialog.tsx:86-99 | once Apply is enabled, an expense dated exactly at the from date is kept |
| FilterDialog.Dialog.constructor | app/components/FilterDialog.tsx:19-21 | the dialog starts on "all" with both dates empty |
| FilterDialog.Dialog.SelectFilterType | app/components/FilterDialog.tsx:37-43 | the new type is set; any type but "custom" clears both dates, "custom" keeps them |
| FilterDialog.Dialog.SetFromDate | app/components/FilterDialog.tsx:223-246 | sets the from date only |
| FilterDialog.Dialog.SetToDate | app/components/FilterDialog.tsx:223-246 | sets the to date only |
| FilterDialog.Dialog.ClearFilters | app/components/FilterDialog.tsx:116-122 | back to "all" with empty dates, handing on the whole list with "All Expenses", which is what applying the new state gives |
| PieChart.CategorySumIsFilteredSum | app/components/PieChart.tsx:33-37 | a category's running total equals the sum of the amounts of that category's expenses |
| PieChart.CategoriesMembership | app/components/PieChart.tsx:33-37 | a category is a key iff some expense has it |
| PieChart.CategoryTotals | app/components/PieChart.tsx:33-37 | for categories that are not names of `Object.prototype` members, the dictionary has exactly the categories as keys, each once and each mapped to its sum; the key list the model returns is in first-occurrence order |
| PieChart.TotalAmount | app/components/PieChart.tsx:39 | definition: the sum of the dictionary's values; properties in TotalAmountIsSumOfCategories and CategoryTotalsSum |
| PieChart.TotalAmountIsSumOfCategories | app/components/PieChart.tsx:39 | summing the dictionary's values is summing the category sums |
| PieChart.CategoryTotalsSum | app/components/PieChart.tsx:39 | the category sums add up to the sum of all amounts |
| PieChart.SortDesc | app/components/PieChart.tsx:59-60 | the entries sorted into non-increasing order, same length |
| PieChart.SortDescPermutes | app/components/PieChart.tsx:59-60 | sorting is a permutation of the entries |
| PieChart.TopFive | app/components/PieChart.tsx:61 | the first min(5, n) entries |
| PieChart.ColorOf | app/components/PieChart.tsx:67 | `colors[index % colors.length]`: a palette colour, `colors[index]` for the first ten |
| PieChart.ColorsDistinct | app/components/PieChart.tsx:54-57 | the ten palette colours are pairwise different |
| PieChart.TopFiveFacts | app/components/PieChart.tsx:59-61 | the top five are entries, non-increasing, and an entry left out is no larger than any of them |
| PieChart.ChartFacts | app/components/PieChart.tsx:59-68 | the slices are min(5, number of categories) different categories with their sums, largest first, with distinct colours; any other category sums to no more than every slice |
| PieChart.Render | app/components/PieChart.tsx:16-68 | "No data" iff no expenses; the second placeholder iff the total is zero; otherwise 1 to 5 slices of different categories as above |
| Analytics.Years | app/components/Analytics.tsx:20 | the years are strictly descending |
| Analytics.YearsMembership | app/components/Analytics.tsx:20 | a year is listed iff some expense falls in it |
| Analytics.YearsDistinct | app/components/Analytics.tsx:20 | no year is listed twice |
| Analytics.ByYear | app/components/Analytics.tsx:27-29 | an order-preserving subsequence of exactly that year's expenses, each as often as in the input |
| Analytics.ByMonth | app/components/Analytics.tsx:32-37 | an order-preserving subsequence of exactly that month's expenses, each as often as in the input |
| Analytics.MonthWithinYear | app/components/Analytics.tsx:27-37 | a month's expenses are a subsequence of its year's |
| Analytics.PositiveBarsSpec | app/components/Analytics.tsx:40-57 | the reduce keeps exactly the keys with a positive total, in key order, each with its name and total |
| Analytics.YearBars | app/components/Analytics.tsx:40-47 | definition: `expensesByYear`; properties in YearBarsSpec |
| Analytics.MonthBars | app/components/Analytics.tsx:50-57 | definition: `expensesByMonth`; properties in MonthBarsSpec |
| Analytics.YearBarsSpec | app/components/Analytics.tsx:40-47 | one pie-chart entry per year with a positive total, newest first, named by the year and carrying its sum |
| Analytics.MonthBarsSpec | app/components/Analytics.tsx:50-57 | one pie-chart entry per month of the current year with a positive total, January first, named by the month and carrying its sum |
| Analytics.SummaryOf | app/components/Analytics.tsx:59-63 | definition: the three summary figures; properties in SummaryFacts |
| Analytics.SummaryFacts | app/components/Analytics.tsx:59-63 | "Total Years" counts distinct years; with non-negative amounts 0 ≤ month total ≤ year total ≤ sum of all amounts |

## Left out

- Reading the request, the file and the form is not modelled. The model takes the method, the file (media type, name, text) and the form entries as values.
- The outer `catch` of the import action and of `previewFile` is not modelled. Nothing in the modelled parsing steps throws; the one throw the model leaves out is a database failure, listed below.
- Store.ExpenseStore.CreateMany: the database never fails in the model. In the source a failing `createMany` throws, and the outer `catch` answers "Failed to process file. Please check the format and try again." instead of the success reply.
- Store.ExpenseStore.Create: the database never fails in the model, and it accepts a record without a date.
- AddExpense.Action: a non-empty date text the host cannot parse passes validation, and the model then stores the record with no date and redirects. In the source `new Date(date)` is an Invalid Date there, which the database rejects, so the action throws instead of redirecting.
- The `catch` around the date parsing at app/routes/importsheet.tsx:147-149 is not modelled. Nothing in its `try` throws, so it is unreachable.
- `parseFloat` and `new Date(text)` are not modelled. They are parameters, so every property holds whatever they return:
  - None stands for NaN and for an Invalid Date.
  - `Infinity`, prefix parsing and time zones are the parameter's business.
- Amounts are real numbers, not IEEE doubles. The sums use exact real arithmetic, so IEEE rounding is not modelled. The test `totalAmount === 0` is taken on the exact sum, which can differ from the rounded one.
- `toLowerCase` is modelled on ASCII letters only. This is exact for every comparison the core makes. The only non-ASCII characters that lower-case to an ASCII letter are the Kelvin sign, which gives `k`, and `İ`, which gives `i` followed by a combining dot. No required column name contains `k`, and the combining dot never matches.
- PieChart.SortDesc: the order among equal totals is not modelled. The model only promises a non-increasing permutation. JavaScript's stable sort keeps the `Object.entries` order among ties. That order is not first occurrence for every key: keys that are array indices, such as the year texts the analytics panel passes, come first, in ascending numeric order.
- PieChart.CategoryTotals: categories that name an `Object.prototype` member are not modelled as the source treats them. The accumulator is a plain `{}` literal. For `"__proto__"`, `acc[category] || 0` reads `Object.prototype`, so the new value is a string. The `__proto__` setter ignores that string, so nothing is stored and that category's amounts drop out of the total. For `"constructor"`, `"toString"` and the like, `acc[category] || 0` reads the inherited function, so the total becomes a string. The model keys every category by its own sum.
- PieChart.Render: for the same prototype-named categories the source can show the zero-total placeholder (only `"__proto__"` amounts) or a string total with `NaN` percentages. The model renders them like any other category.
- PieChart.CategoryTotals: the key list is in first-occurrence order. `Object.entries` orders array-index keys (such as `"2024"`) numerically ahead of the others. No contract depends on this order, because it only decides ties in the sort.
- The pie geometry is not modelled: angles, SVG paths and percentages.
- The analytics panel hands five lists to `PieChart`: the per-year and per-month entries, all expenses, the current year's and the current month's. Those charts are not run through PieChart.Render, which takes expenses. The model stops at the lists, as Analytics.YearBars and Analytics.MonthBars.
- Analytics.SummaryOf: the source reads the clock twice, once for the year and once for the month. The model takes both from one instant `now`, so it does not capture a New Year's midnight between the two readings that pairs the old year with January.
- The dialog's locale-formatted summaries (month name, custom range) are kept as tags. Their text is not modelled.
- Analytics renders its dates through `new Date(e.date)`. The model's expense dates are always valid, so an Invalid Date in the analytics panel is not modelled.
- `!expenses` for a null list is not modelled in the pie chart. A sequence cannot be null.
- FilterDialog.Dialog.SetFromDate: requires the "custom" type, because the date inputs are only rendered then.
- FilterDialog.Dialog.SetToDate: requires the "custom" type, because the date inputs are only rendered then.
- The rendering is not part of this model:
  - the modal's body-scroll effect, and opening and closing;
  - drag-and-drop and the preview table markup;
  - the success banner effect.
- app/components/ExpenseList.tsx, app/routes/_index.tsx and app/routes/edit.$id.tsx are not part of this model.
