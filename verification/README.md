# finanza-familiar in Dafny

A model of the client-side logic of *Finanza Familiar*, a family budgeting app
in React. The model covers:

- the dashboard's time-range filter, the monthly summary and the budget
  classifier, with its "top expense category";
- the chart data: per-day buckets with a running balance, and the expense pie
  with its legend;
- the transaction list's add and delete handlers, the type tabs, the id repair
  on load, and the backup export and import check;
- the settings screen's member list;
- the entry screen: registration, PIN guards and PIN check;
- the new-transaction form.

Everything is pure functions over immutable datatypes. State changes are
functions from the old state to the new one. An event datatype and a `Run`
function replay any sequence of user actions, so invariants can be proved
over every reachable state.

Files, one module each:

| file | module | what |
|---|---|---|
| option.dfy | Optional | `Option` |
| seqs.dfy | Seqs | `filter`, a stable sort, sums, distinctness |
| text.dfy | Text | JavaScript `trim`, decimal text, `padStart`, `split` |
| calendar.dfy | Calendar | local dates, day numbers, the `YYYY-MM-DD` key and its reader |
| types.dfy | Types | `Transaction`, `Category`, `FamilyProfile` (types.ts) |
| time_range.dfy | TimeRange | the all/month/week/today filter |
| summary.dfy | Summary | totals, per-category totals, budget status |
| charts.dfy | Charts | time series and pie data |
| store.dfy | Store | App handlers, type filter, id repair, backup import/export |
| auth.dfy | Auth | the registration and PIN screen |
| form.dfy | Form | the new-transaction form |

Modelling choices:

- **Amounts** are `real`, so sums are exact. The 90 % threshold is `0.9 * income`.
- **Dates** are the local calendar reading of the stored timestamp: year,
  month, day and seconds of the day.
  - `DayNumber` counts days in the proleptic Gregorian calendar.
  - `Instant` is `DayNumber * 86400 + seconds`.
  - The day key `getFullYear() + '-' + padStart(month) + '-' + padStart(day)`
    is modelled as text. `ParseYMD(FormatYMD(d)) == Some(d)` is proved, so
    two keys are equal exactly when the days are.
  - The per-day buckets are keyed by the date itself. This is equivalent to
    the text key by that round trip.
- **Categories** are the ten values of the enumeration in types.ts. An empty
  top category is `None`.
- **Confirmations and clocks.** The answers to `confirm` dialogs are boolean
  parameters. Clock readings, generated ids and `parseFloat` results are
  parameters too.

The code reduces over the keys with a strict `>`, so among tied categories
the one inserted last wins; `Summary.TopIndex` and
`Summary.TopCategoryIsLargest` state this.

## Model

| member | source | states |
|---|---|---|
| TimeRange.FilterByRange | App.tsx:176-207 | The shown list keeps the input order and drops items. A transaction is in it exactly when the selected range keeps it, and then as often as in the input. |
| TimeRange.AllIsIdentity | App.tsx:185 | The `all` range returns the list unchanged. |
| TimeRange.TodayMeansSameDay | App.tsx:178-192 | `today` keeps a transaction exactly when its date is valid and its local calendar day is now's. The text keys match only for equal days. |
| TimeRange.WeekMeansLastSevenDays | App.tsx:194-199 | `week` keeps a transaction exactly when its day is at most seven days before today. The bound includes that day's midnight, and there is no upper bound. |
| TimeRange.MonthMeansCalendarMonth | App.tsx:201-203 | `month` keeps a transaction exactly when its day lies between the first and the last day of now's month. |
| TimeRange.TodayWithinWeekAndMonth | App.tsx:188-203 | Whatever `today` keeps, `week` and `month` keep too. |
| Text.Trim | App.tsx:94 | The result is `s` with white space removed from both ends. It is empty exactly when `s` is all white space, and otherwise starts and ends with a non-space character. |
| Calendar.ParseFormat | components/TransactionForm.tsx:47 | Reading the `YYYY-MM-DD` key of a valid day gives that day back. |
| Calendar.FormatInjective | components/DashboardCharts.tsx:25 | Two valid days have the same key only when they are the same day. |
| Summary.Summarize | App.tsx:209-227 | Net savings is the signed sum of all amounts: income minus expense. Income and expense totals are the sums over their kind. The fixed subtotal sums only the expenses in Vivienda, Servicios, Diezmos, Transporte and Transferencias. With non-negative amounts, 0 ≤ fixed ≤ expense. |
| Summary.IncomeMinusExpense | App.tsx:210-212 | Total income minus total expense equals the sum of signed amounts. |
| Summary.FixedIsFiveCategories | App.tsx:214-224 | The fixed subtotal equals the five fixed categories' expense sums added up, each computed separately. |
| Summary.FixedWithinExpense | App.tsx:214-224 | With non-negative amounts, the fixed-category subtotal lies between 0 and the total expense. |
| Summary.GroupTotals | App.tsx:236-242 | There is one entry per category that occurs, with no repeats and in first-seen order. Each entry holds its category's sum, and the entries add up to the sum of all amounts. |
| Summary.TopIndex | App.tsx:244 | The chosen entry has the largest total, and every later entry is strictly smaller: the last maximum wins. |
| Summary.Budget | App.tsx:230-250 | Neutral iff income is 0. Danger iff income ≠ 0 and expense > income. Warning iff income ≠ 0 and 0.9·income ≤ expense ≤ income. Healthy otherwise. Neutral and healthy name no category. |
| Summary.TopOfTotals | App.tsx:236-245 | The top entry of the expense totals is a category that occurs and has the largest sum. Every category tied with it occurred before each of its occurrences. With no expenses there is no top. |
| Summary.TopCategoryIsLargest | App.tsx:232-245 | In danger or warning, the named category occurs among the expenses and has the largest sum. Every category tied with it occurred before each occurrence of it. With no expenses, nothing is named. |
| Summary.DangerNamesCategory | App.tsx:230-245 | With non-negative amounts, danger and warning always name a category. |
| Charts.GroupByDate | components/DashboardCharts.tsx:18-45 | Days are distinct, and there is a bucket exactly for each day that occurs. Each bucket holds that day's income, its non-income and their difference. Its sort instant is that of the day's first transaction. The balances add up to income minus expense. |
| Charts.Accumulate | components/DashboardCharts.tsx:47-54 | The first cumulative value is the start plus the first day's income minus expense. Each later value adds its own day's income minus expense to the previous one. |
| Charts.AccumulateLast | components/DashboardCharts.tsx:47-54 | The last cumulative value is the start plus the sum of the balances. |
| Charts.TimeSeriesDays | components/DashboardCharts.tsx:18-54 | The series has one point per local day that occurs, each with that day's sums. It is empty exactly when there are no transactions. |
| Charts.TimeSeriesChronological | components/DashboardCharts.tsx:47-50 | Days appear in strictly increasing calendar order, with strictly increasing sort instants. |
| Charts.ChronologicalPair | components/DashboardCharts.tsx:29-32 | For buckets of different days, the sort by first instant agrees with calendar order, and the instants differ. |
| Charts.TimeSeriesCumulative | components/DashboardCharts.tsx:47-54 | cumulative[0] = balance[0] and cumulative[j] = cumulative[j-1] + balance[j]. The last value equals the summary's net savings. |
| Charts.SlicesSums | components/DashboardCharts.tsx:63-68 | Slice values add up to the category totals. When the total is positive, the percentages add up to that sum over the total times 100. |
| Charts.PieDataSlices | components/DashboardCharts.tsx:57-69 | There is one slice per category that occurs among the expenses, with that category's sum and its percentage of the total expense. Values never increase along the pie. It is empty exactly when there are no expenses. |
| Charts.PieDataTotals | components/DashboardCharts.tsx:57-68 | The pie values add up to the total expense. When that total is positive, the percentages add up to 100. |
| Charts.LegendShowsLargest | components/DashboardCharts.tsx:235 | The legend shows min(4, slices) slices of the pie. No slice left out is larger than one shown. |
| Store.AddTransaction | App.tsx:58-60 | The new transaction is first, followed by the old list unchanged. The pending deletion is untouched. |
| Store.RequestDelete | App.tsx:62-64 | The list is unchanged, and the id becomes the pending deletion. |
| Store.CancelDelete | App.tsx:616 | The list is unchanged, and there is no pending deletion afterwards. |
| Store.ConfirmDelete | App.tsx:66-71 | With a non-empty pending id, exactly the transactions carrying it go, and the pending id is cleared. Every other transaction stays as often as it occurred, in order. Otherwise nothing changes. |
| Store.AddThenDelete | App.tsx:58-71 | Deleting a just-added transaction whose id is new and non-empty restores the list. |
| Store.ConfirmDeleteOnce | App.tsx:66-71 | A second confirmation changes nothing. |
| Store.AddMember | App.tsx:92-104 | With a profile and a non-blank entry, the trimmed name is appended and the field cleared. Name and PIN are kept. Otherwise nothing changes. |
| Store.RemoveMember | App.tsx:106-117 | Once confirmed, every member equal to the name goes. Every other name stays as often as it occurred, in order. Name and PIN are kept. Without a profile or confirmation, nothing changes. |
| Store.AddThenRemoveMember | App.tsx:92-117 | Removing a newly added, previously absent member restores the profile. |
| Store.FilterByType | App.tsx:255-258 | The shown list keeps the order and holds exactly the transactions of the selected kind, each as often as in the input. `all` changes nothing. |
| Store.TypeAndRangeCommute | App.tsx:255-258 | The type tab and the time range can be applied in either order. |
| Store.RepairIds | App.tsx:30-33 | Every loaded transaction ends up with a non-empty id. Transactions with an id are kept as they are, and the others change only in their id. |
| Store.RepairIdsIdempotent | App.tsx:30-33 | Repairing repaired transactions changes nothing. |
| Store.Get | App.tsx:149 | A property read finds a member of that name in an object. No value means no such member, or that the value is not an object. |
| Store.Import | App.tsx:140-172 | The shape check passes iff `family` is truthy and `transactions` is an array. Data is restored iff the text parses, passes the check and the answer is yes. It is declined (nothing happens) iff it passes and the answer is no. The "not a backup" alert shows iff a non-null value fails the check. Unreadable text and `null` both give the read error. |
| Store.Export | App.tsx:120-127 | A backup exists exactly when a family is registered. |
| Store.ExportThenImport | App.tsx:119-172 | Importing a backup the app exported restores its family and its transactions in order. Declining changes nothing. |
| Auth.InitialAuth | components/AuthScreen.tsx:11-21 | The screen opens on the PIN prompt iff a family is stored. Family name, member list, member field, both PINs and the error are empty. |
| Auth.HandlePinChange | components/AuthScreen.tsx:64-69 | Text of at most four ASCII digits replaces the typed PIN and clears the error. Any other text is ignored. |
| Auth.HandleCreatePinChange | components/AuthScreen.tsx:71-75 | Text of at most four ASCII digits replaces the new PIN. Any other text is ignored. |
| Auth.AddMember | components/AuthScreen.tsx:30-36 | A non-blank entry is trimmed and appended, the field cleared, and every other field kept. A blank one changes nothing. |
| Auth.DropIndexSlices | components/AuthScreen.tsx:51-53 | Filtering out index i leaves the elements before and after i, in order. |
| Auth.RemoveMemberAt | components/AuthScreen.tsx:51-53 | Exactly position i goes and the order is kept. An index outside the list changes nothing. |
| Auth.AddThenRemoveMember | components/AuthScreen.tsx:30-53 | Removing the member just added restores the list. |
| Auth.FinalMembers | components/AuthScreen.tsx:40-43 | The saved members are the list, followed by the trimmed pending entry when it is non-blank. |
| Auth.RegisterSubmit | components/AuthScreen.tsx:38-49 | A family is registered iff the name is non-empty, a member is known (counting the pending entry) and the PIN has four characters. The profile carries that name and PIN, and exactly the members `FinalMembers` gives. |
| Auth.VerifyPin | components/AuthScreen.tsx:55-62 | The app unlocks iff a family is stored and the typed PIN equals its PIN. Otherwise the typed PIN is wiped and "PIN Incorrecto" shown. |
| Auth.ApplyKeepsPins | components/AuthScreen.tsx:64-75 | No user action makes either PIN field violate `^\d{0,4}$`. |
| Auth.RunKeepsPins | components/AuthScreen.tsx:64-75 | After any sequence of actions, both PIN fields match `^\d{0,4}$`. |
| Auth.RegisteredPinIsFourDigits | components/AuthScreen.tsx:38-76 | Whatever the user did, a registered PIN is exactly four digits. |
| Auth.RegisteredPinUnlocks | components/AuthScreen.tsx:38-69 | Typing the PIN a family registered with unlocks that family. |
| Form.CategoryOptions | components/TransactionForm.tsx:211 | The select offers the income list for income and the expense list otherwise. |
| Form.CategoryListsPartition | components/TransactionForm.tsx:26-40 | The two lists are disjoint, cover all ten categories, and hold Salario and Alimentos respectively. |
| Form.InitialForm | components/TransactionForm.tsx:11-17 | The form opens as an expense of Alimentos, with empty texts and no member. |
| Form.AutoSelectMember | components/TransactionForm.tsx:19-24 | While no member is chosen and the family has members, the first is selected. Otherwise nothing changes. |
| Form.RunMemberOfFamily | components/TransactionForm.tsx:17-24 | After any sequence of actions, the selected member is one of the family's, or none when the family has no members. |
| Form.SubmittedByMember | components/TransactionForm.tsx:19-24 | A transaction submitted from any reachable form is created by a family member. |
| Form.SetKind | components/TransactionForm.tsx:101-119 | Switching to income selects Salario, and switching to expense selects Alimentos. That category is on the new kind's list, and nothing else changes. |
| Form.ApplyKeepsConsistent | components/TransactionForm.tsx:100-214 | No action moves the category off the list shown for the current kind. |
| Form.RunConsistent | components/TransactionForm.tsx:100-214 | After any sequence of actions, the category belongs to the current kind's list. |
| Form.LocalDateAsWritten | components/TransactionForm.tsx:47-50 | As the code builds the date, a year from 0 to 99 becomes 1900 plus that year. Other years are kept. |
| Form.TwoDigitYearShifts | components/TransactionForm.tsx:47-50 | "0050-03-15" reads as 15 March of year 50, but the code files it under 1950. |
| Form.LocalDate | components/TransactionForm.tsx:47-50 | The intended construction keeps the year, month and day as read. It agrees with the code for years above 99. |
| Form.Submit | components/TransactionForm.tsx:42-74 | Nothing happens without an amount text or a member, or for a date text that is not a real day. Otherwise the transaction takes its kind, category, texts, member and id from the form, its day from the date text and its time from the clock. Amount, description and company are then cleared, and everything else is kept. The day is built with the corrected `Form.LocalDate`, so years 0 to 99 are kept as read. |
| Form.SubmitAsWritten | components/TransactionForm.tsx:42-50 | The code's submit: the day is `Form.LocalDateAsWritten` of the parsed fields, so years 0 to 99 become 1900 plus the year. |
| Form.SubmitAsWrittenDay | components/TransactionForm.tsx:47-50 | When the day the code builds exists, the code's submit lands on it. |
| Form.SubmitAsWrittenAgrees | components/TransactionForm.tsx:47-50 | For a parsed year above 99, the code's submit and the corrected one give the same result. |
| Form.SubmitKeepsDay | components/TransactionForm.tsx:47-65 | For any date text that reads as a real day, zero-padded years included, a submission lands on that day and keeps the form consistent. |
| Form.SubmitKeepsKey | components/TransactionForm.tsx:47-65 | When the date text is a day's `YYYY-MM-DD` key, the submitted transaction has that same key. |
| Form.SubmitPaddedYear | components/TransactionForm.tsx:47-50 | For "0050-03-15", the corrected submit gives 15 March 50, and the code's gives 15 March 1950. |

## Left out

- Time zones, daylight saving time and milliseconds. A date is its local
  calendar reading, and `Instant` counts whole seconds on a uniform local
  time line.
- Years before 0. Dates with a negative year are not valid dates here.
- Floating-point arithmetic. Amounts are exact reals, so `0.90 * income` and
  the sums have no rounding.
- Category values outside the enumeration. types.ts also allows free strings,
  which only an imported backup could bring in.
- `localStorage`, `JSON.parse`/`JSON.stringify`, `FileReader`, the download
  link, `alert` and the modals. This is I/O. Import works on the parsed value,
  and export builds the value that would be written.
- Charts.GroupByDate: does not model transactions whose stored date does not
  read as a date. The code groups those under a `NaN-NaN-NaN` key; here every
  input date must be valid.
- Charts.PieDataSlices: does not state that slices with equal values keep
  first-seen order. The sort is stable, but that order is not proved.
- The legend's `Math.round` of the percentage, the colours, `displayDate` and
  all locale formatting (`toLocaleDateString`, `Intl.NumberFormat`).
- The summary cards, the AI advisor and its service. These are presentation
  and a call to an external API.
- Store.RepairIds: ids are strings, so an absent id is the empty string.
  Non-string ids such as the number 0 are not modelled.
- Store.RepairIds and Form.Submit take `Date.now()`, `Math.random()` and
  `parseFloat` results as parameters.
- Store.Export: the date text of each transaction is a parameter, since
  `toISOString` depends on the time zone. The file name is left out.
- A failing `localStorage.setItem` during import, which the code reports as a
  read error.
- Form.Submit: builds the day with the corrected `Form.LocalDate`, so for
  years 0 to 99 it differs from the code, which gives 1900 plus the year.
  `Form.SubmitAsWritten` models the code as written (see "## Findings").
- Form.Submit and Form.SubmitAsWritten: a date text that is not three runs of
  digits, or that names a day that does not exist, gives no transaction. In
  JavaScript, `Number("")` and `new Date` would normalise such values. A
  browser date input never produces them.
- The form's initial date is `toISOString().split('T')[0]`, the UTC day. It
  is a parameter here.
- The reset button on the PIN screen (clears storage and reloads), login and
  logout flags, and the settings modal's open/close state.
- String length in JavaScript counts UTF-16 code units, and here it counts
  characters. On reachable states the PIN fields hold only ASCII digits, so
  the two agree.

## Findings

| source | as written | input that shows it | evidently intended | confidence | as-written member | corrected member |
|---|---|---|---|---|---|---|
| components/TransactionForm.tsx:47-50 | `new Date(year, month - 1, day, ...)` reads years 0 to 99 as 1900 + year | date field "0050-03-15" is filed under 15 March 1950 | the transaction falls on the day the field shows | medium, not executed | Form.SubmitAsWritten, via Form.LocalDateAsWritten (counterexamples Form.TwoDigitYearShifts, Form.SubmitPaddedYear) | Form.Submit, via Form.LocalDate (property Form.SubmitKeepsDay, which covers "0050-03-15") |
