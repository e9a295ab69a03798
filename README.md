# Expense tracker transaction store, modelled in Dafny

This project models the logic of a browser expense tracker (`script.js`). The tracker keeps a list of
income and expense records in the page's `localStorage`. From that list it derives three things: the
balance/income/expense summary, a bar chart of one year's monthly income and expense, and a CSV export.

Modules, one per part of the store:

- `Transactions` (`transactions.dfy`): the record `{id, amount, category, date}`. The amount is in
  integer cents. The date is reduced to the calendar `year` and the `month`, numbered 0..11 as
  `getMonth` numbers it. The module also holds the sign rule of the add form (`SignedAmount`) and the
  filter-by-id of the delete button (`Without`).
- `Summary` (`summary.dfy`): `updateValues`. The total is the sum of all amounts, income the sum of the
  positive ones and expense the signed sum of the negative ones.
- `Monthly` (`monthly.dfy`): the aggregation in `drawChart`. `Aggregate` is the loop that fills the
  month-keyed table and then reads the two 12-value series off it, with zero for months that have no
  entry. `MonthlyIncome` and `MonthlyExpense` are the reference series: for each month, the sums
  `MonthIncome` and `MonthExpense` defined record by record. `Aggregate` is proved equal to them.
- `Years` (`years.dfy`): the year list of `populateYearSelect`. It holds the distinct years, newest
  first, and the first of them is selected.
- `Export` (`export.dfy`): the lines of `exportCSV`, and a reader that splits the text back into lines
  and columns.
- `Store` (`store.dfy`): the module-level state as a class `TransactionStore`. It has the list, the
  storage slot, and the year selector's options and value. The selector is part of the state because
  `drawChart` reads its year from it.

The model follows the code in these places:

- Ids are inputs, and nothing assumes they are unique. `Without` drops every record with the id.
- Adding does not refill the year selector. `addTransaction` calls `drawChart` but not
  `populateYearSelect`. So after the first record on a fresh page, the selector is still empty, the
  chart's year is NaN, and the chart shows zeros. `SalaryThenFood` in `store.dfy` proves this scenario.
  Removing refills the selector through `init`. The same scenario proves that removing even an unknown
  id then selects the records' year.
- The selector's value is `Option<int>`. `None` is the empty selector, whose value parses to NaN and
  matches no year.
- Nothing stored loads as the empty list (`Load`). This is the `|| []` on line 11.
- Records carry no description. The CSV Description column is therefore always empty, and the Date
  column comes from the id.

## Model

| member | source | states |
|---|---|---|
| `Transactions.SignedAmount` | script.js:20-26 | The stored amount has the entered magnitude. It is ≤ 0 when the type is "expense" and ≥ 0 for any other type. |
| `Transactions.NewTransaction` | script.js:24-29 | The new record carries the given id, category, year and month. Its amount has the entered magnitude, ≤ 0 for "expense" and ≥ 0 otherwise. |
| `Transactions.Without` | script.js:65 | The filtered list is no longer than the list. Every record in it comes from the list and carries another id. |
| `Transactions.WithoutMembers` | script.js:65 | After removal no record carries the id, and every record with another id is still in the list. |
| `Transactions.WithoutCount` | script.js:65 | Removal deletes every occurrence of a record with the id and keeps every other record's exact number of occurrences. |
| `Transactions.WithoutAppend` | script.js:65 | Filtering distributes over concatenation, so the kept records stay in their original relative order. |
| `Transactions.WithoutAbsent` | script.js:65 | Removing an id that no record carries leaves the list unchanged. |
| `Summary.Summarize` | script.js:53-57 | Income ≥ 0, expense ≤ 0, total = income + expense, and the empty list gives 0/0/0. |
| `Summary.SumSplits` | script.js:54-57 | The sum of all amounts equals the sum of the positive ones plus the sum of the negative ones. |
| `Summary.PositivesSumNonnegative` | script.js:56 | The income sum is never negative. |
| `Summary.NegativesSumNonpositive` | script.js:57 | The expense sum is never positive. |
| `Summary.PositivesCount` | script.js:56 | Income sums exactly the amounts > 0, each as often as it occurs, and nothing else. |
| `Summary.NegativesCount` | script.js:57 | Expense sums exactly the amounts < 0, each as often as it occurs, and nothing else. |
| `Summary.SummarizeAppend` | script.js:31-34 | Adding a record moves the total by its amount. It moves income by the amount when the amount is positive, and expense by the amount when it is negative. |
| `Summary.SummarizeRemoveAbsent` | script.js:64-67 | Removing an absent id leaves the summary unchanged. |
| `Monthly.MonthIncome` | script.js:115-118 | A month's income is the sum of that month's amounts ≥ 0 in the selected year, so it is never negative. |
| `Monthly.MonthExpense` | script.js:115-119 | A month's expense is the sum of the magnitudes of that month's negative amounts in the selected year, so it is never negative. |
| `Monthly.MonthlyIncome` | script.js:128 | The income series has 12 values, January first. Value m is month m's income sum, which is ≥ 0 and is 0 for a month without such records. |
| `Monthly.MonthlyExpense` | script.js:129 | The expense series has 12 values, January first. Value m is month m's expense magnitude, which is ≥ 0 and is 0 for a month without such records. |
| `Monthly.Aggregate` | script.js:109-129 | The loop over the month-keyed table yields exactly 12 income and 12 expense values. All of them are ≥ 0, and they equal the per-month sums, with zero for months without data. |
| `Monthly.MonthAppend` | script.js:112-121 | Both monthly sums distribute over concatenation of record lists. |
| `Monthly.OtherYearIgnored` | script.js:112-115 | A record outside the selected year, wherever it stands, changes neither series. |
| `Monthly.NothingSelectedIsZero` | script.js:109-129 | When no record is in the selected year, every month is zero. This covers an empty list, an unrecorded year and an empty selector. |
| `Monthly.YearNet` | script.js:112-129 | Over the 12 months, total income minus total expense equals the signed sum of the selected year's amounts. |
| `Monthly.YearTotalIsBalance` | script.js:112-121 | When every record is in the selected year, the chart's yearly net equals the summary's total. |
| `Years.DistinctYears` | script.js:93 | The year list is strictly descending, so it has no duplicates. It contains exactly the years of the records. |
| `Years.DescendingUnique` | script.js:93 | Two strictly descending lists with the same elements are equal. So the year list is the one that sorting the set of years newest first produces. |
| `Years.SelectedIsLatest` | script.js:101-103 | A year is selected exactly when there are records. The selected year is a record's year, and no record is later. |
| `Export.TypeLabel` | script.js:78 | The Type column is "Income" exactly when the amount is ≥ 0, and "Expense" otherwise. |
| `Export.ExportCsv` | script.js:74-81 | The loop builds the header line followed by one line per record, in list order. Each line ends in a newline. |
| `Export.AmountText` | script.js:80 | The amount prints in currency units the way a number prints. A leading minus appears exactly for a negative amount. A decimal point appears exactly when the amount is not whole. After the point come one or two digits, never ending in 0. The whole part has no leading zero, so 5 cents prints as "0.05". |
| `Export.AmountRoundTrip` | script.js:80 | The Amount column, printed as a number in currency units, reads back as the amount in cents. |
| `Export.RowReadBack` | script.js:77-80 | When the date text and the category contain no comma or newline, a record's line has no newline. It then splits at its commas into the date text, the direction, the amount, the category and an empty description. |
| `Export.ExportLines` | script.js:75-81 | When no date text or category contains a comma or newline, the export splits at its newlines into the header, one line per record, and an empty piece after the last newline. |
| `Export.ExportReadBack` | script.js:74-81 | When no date text or category contains a comma or newline, there are exactly two more pieces than records. Line i + 1 gives back record i's date text, its direction ("Income" iff amount ≥ 0), its amount and its category. |
| `Store.Load` | script.js:11 | The loaded list is the saved list, or the empty list when nothing is saved. |
| `Store.TransactionStore.constructor` | script.js:11 | The list is the saved list, or empty when nothing is saved. The year selector is filled from it. |
| `Store.TransactionStore.UpdateLocalStorage` | script.js:70-72 | The storage slot holds the current list. |
| `Store.TransactionStore.PopulateYearSelect` | script.js:92-104 | The options are the distinct years, newest first, and the first option is selected. |
| `Store.TransactionStore.Add` | script.js:17-38 | The method appends exactly one record, built by the sign rule, at the end. Earlier records are unchanged and the slot holds the new list. The year selector is untouched, and the store invariant holds. |
| `Store.TransactionStore.Remove` | script.js:64-68 | The list becomes the filtered list and the slot holds it. The selector is refilled from it, and the store invariant holds. |
| `Store.TransactionStore.SelectYear` | script.js:174 | Picking one of the options makes it the chart's year and keeps the store invariant. |
| `Store.TransactionStore.DrawChart` | script.js:106-130 | The chart receives the two 12-month series of the current list for the selected year. |

## Left out

- DOM work is not modelled: element lookups, list rows (`addTransactionDOM`), the summary text, form
  clearing and event wiring. None of it is logic.
- The Chart.js object and its destroy/recreate are not modelled. They are a foreign library; only the
  two series handed to it are modelled.
- `localStorage` and JSON serialisation are reduced to an abstract slot that holds a list. Corrupt
  stored text would make `JSON.parse` throw in the source, and the model does not claim to handle it.
- `Date.now()`, `new Date`, `toISOString`, `getFullYear`, `getMonth` and `toLocaleDateString` depend on
  the clock and the local timezone. They are replaced by explicit `id`, `year` and `month` inputs, and
  by a `formatDate` parameter for the CSV Date column.
- Amounts are integer cents, not floating-point numbers. Several things follow from that. Float
  rounding in the sums and the `toFixed(2)` display rounding are not modelled. Entries with more than
  two decimals, and a non-numeric entry that becomes NaN, cannot be expressed. Number printing in
  exponent notation (magnitudes of 10^21 and above) is not modelled.
- Export.ExportReadBack: the read-back only holds when dates and categories contain no comma or
  newline. The source does not quote CSV fields.
- Export.RowReadBack: the five-column split only holds when the date text and the category contain no
  comma or newline. The source writes both unquoted, so a comma in a category gives six columns.
- Export.ExportLines: the line split only holds when no date text or category contains a comma or
  newline, for the same reason.
- The `Blob`/URL/anchor download of `expenses.csv` is not modelled, because it is browser I/O.
