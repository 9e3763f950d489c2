# Hisaab finance app — a verified model of its bookkeeping

Hisaab is a personal-finance web app. It keeps income and expense transactions, loans to people (in EUR or PKR, repaid in either currency) and notifications in one state store. Its pages derive the following from that state:

- monthly figures and category breakdowns;
- a four-month income/expense window;
- a calendar grid;
- a currency watchlist;
- loan quotes.

This project restates that logic in Dafny and proves what each part promises.

Modules, one file each:

- `Types` (`types.dfy`): the records of `types.ts`. Amounts and rates are `real`. Dates are already-parsed (year, month 0..11, day) triples. Ids are strings.
- `Lists`: the array operations the pages use, stated once for any element type: `filter`, the index `find` stops at, and a stable descending sort.
- `Gregorian`: the calendar as JavaScript's `Date` counts it:
  - leap years;
  - month lengths;
  - day numbers from 1970-01-01, with out-of-range months carried into the year;
  - weekdays.
- `MonthNav`: month arithmetic by the linear index `year * 12 + month`, and the selected-month cursor of the dashboard and the analytics page.
- `Aggregation`: the month filter, sums by kind, the `|| 1` percentage, grouping by category in first-appearance order, and newest-first ordering.
- `Store` (App.tsx): the `AppStore` class. Its fields are replaced by its callbacks. The pure list updates it uses are stated beside it.
- `Lending` (pages/Lend.tsx): covers four things.
  - The two-currency repayment total. `Convert` is its reference definition, with the rate given as PKR per EUR.
  - The status rule applied by `handleAddRepayment`.
  - New loans, remaining amount and overdue flag.
  - The invariant "the status agrees with the total". For a loan with a positive principal, it is proved to be preserved by every non-negative repayment and by the store update that follows it. A loan with principal 0 is marked `returned` by its first repayment, because the code tests `total >= principal`; that is why the invariant needs a positive principal.
- `Dashboard`, `Analytics`, `Calendar`, `Currency`, `LoanQuote` (pages/LoanRequest.tsx) and `EntryForm` (pages/Transactions.tsx): the pages' own computations and state changes.

Where the code keeps state and changes it, the model does too:

- `Store.AppStore`, `MonthNav.MonthCursor`, `Calendar.CalendarView`, `Currency.CurrencyBoard` and `EntryForm.EntryFormView` are classes whose methods reassign their fields.
- The `forEach` that fills the category dictionary (`Dashboard.CategorySummary`), the `reduce` that mutates its accumulator (`Analytics.ExpenseData`) and the counting loop of the four-month window (`Analytics.HistoricalFlow`) are methods with loops.
- Each of these is proved equal to the function the lemmas speak about.

A worked case of the two-currency total: 45750 PKR at 305.5 PKR/EUR is about 149.75 EUR, so a 150 EUR loan repaid with it stays `partial`; 45825 PKR repays it (`Lending.ExamplePkrRepayment`).

## Model

| member | source | states |
|---|---|---|
| Lending.UpdatedRate | pages/Lend.tsx:34-47 | after a rate fetch, the rate is the fetched one when it is present and non-zero, else unchanged; a positive rate stays positive (the same rule at pages/Dashboard.tsx:27 and pages/LoanRequest.tsx:18) |
| Lending.RateStaysPositive | pages/Lend.tsx:34-47 | a positive rate stays positive through any series of fetches that answer with non-negative rates |
| Lending.InitialRatesPositive | pages/Lend.tsx:16 | starting from 300 (the Lend page) or 302.45 (pages/Dashboard.tsx:13, pages/LoanRequest.tsx:10), the rate stays positive through any such series of fetches |
| Lending.PkrEquivalent | pages/LoanRequest.tsx:32 | the "≈ PKR" figure is the EUR amount converted to PKR at the current rate, and is non-negative for non-negative inputs (also pages/Dashboard.tsx:122) |
| Lending.ConvertRoundTrip | pages/Lend.tsx:104-109 | converting with one rate and back gives the amount back, so the division for EUR loans and the multiplication for PKR loans are inverse directions of one conversion |
| Lending.Contribution | pages/Lend.tsx:102-109 | a repayment in the loan's own currency adds exactly its amount; a non-negative repayment never adds a negative amount |
| Lending.ContributionIsConversion | pages/Lend.tsx:104-109 | every repayment adds its amount converted into the loan's currency at the rate captured with that repayment |
| Lending.TotalIgnoresLendingRate | pages/Lend.tsx:100-111 | the total does not depend on `exchangeRateAtLending` |
| Lending.TotalAppend | pages/Lend.tsx:100-111 | the total over `rs + [r]` is the total over `rs` plus the contribution of `r` |
| Lending.TotalNonNegative | pages/Lend.tsx:100-111 | repayments of non-negative amounts give a non-negative total |
| Lending.ResolveStatus | pages/Lend.tsx:88-93 | `returned` when the total reaches the principal, `partial` when it is positive but short, otherwise the previous status; never set back to `pending` |
| Lending.Repaid | pages/Lend.tsx:83-93 | the repayment is appended at the end, every field other than `status` and `repayments` is kept, and the status is resolved against the new total |
| Lending.HandleAddRepayment | pages/Lend.tsx:70-93 | no update exactly when no record has the modal's id; otherwise the update is `Repaid` of the first record with that id |
| Lending.NewLoan | pages/Lend.tsx:52-65 | a new loan is `pending`, has no repayments, captures the current rate as its lending rate, and keeps the form's id, person, amount, currency, dates and note |
| Lending.Remaining | pages/Lend.tsx:187 | what is left is principal minus total while the total is short of the principal, and 0 exactly when the total reaches it; never negative |
| Lending.Overdue | pages/Lend.tsx:189 | a loan is overdue exactly when it is not returned and its due day is before today |
| Lending.NewLoanConsistent | pages/Lend.tsx:52-65 | a new loan of positive principal has a status that agrees with its total, and all of it remaining |
| Lending.RepaidConsistent | pages/Lend.tsx:83-93 | a non-negative repayment keeps the status in agreement with the total |
| Lending.RepaidAll | pages/Lend.tsx:83-86 | repayments applied in order leave exactly those repayments appended |
| Lending.HistoryConsistent | pages/Lend.tsx:88-93 | any sequence of non-negative repayments keeps the status in agreement with the total |
| Lending.ReplaceKeepsConsistent | App.tsx:196-198 | replacing loans by a consistent loan keeps the whole ledger consistent |
| Lending.SubmitLoan | pages/Lend.tsx:52-67 | submitting the loan form appends exactly the new loan to the store and changes nothing else |
| Lending.SubmitRepayment | pages/Lend.tsx:70-95 | an unknown id leaves the store's loans unchanged; a known one replaces the loans with that id by the repaid record; a consistent ledger stays consistent; the other store fields are unchanged |
| Lending.ExamplePartialEur | pages/Lend.tsx:88-93 | 50 EUR against 150 EUR: total 50, `partial`, 100 remaining |
| Lending.ExamplePkrRepayment | pages/Lend.tsx:104-105 | against 150 EUR at 305.5: 45825 PKR gives `returned`, 45750 PKR gives `partial` |
| Store.Flip | App.tsx:188 | toggling always changes the theme |
| Store.FlipTwice | App.tsx:188 | toggling twice restores the theme |
| Store.InitialTheme | App.tsx:136-140 | a saved "light" or "dark" wins; anything else falls back to the system preference |
| Store.Without | App.tsx:193 | deleting by id keeps exactly the elements with another id |
| Store.WithoutAppend | App.tsx:193 | deleting works piecewise, so the survivors keep their relative order |
| Store.WithoutAbsent | App.tsx:199 | deleting an id nobody has leaves the list unchanged |
| Store.ReplaceById | App.tsx:196-198 | same length; elements with the updated id become the update, all others are unchanged |
| Store.ReplaceKeepsIds | App.tsx:196-198 | every position keeps its id |
| Store.ReplaceAbsent | App.tsx:196-198 | updating an id nobody has leaves the list unchanged |
| Store.ReplaceIdempotent | App.tsx:196-198 | updating twice with the same record is updating once |
| Store.UnreadCount | App.tsx:201 | the count is at most the length and zero exactly when every notification is read |
| Store.UnreadCountIsMultiplicity | App.tsx:201 | the count is the number of `false` values in the `isRead` column |
| Store.MarkRead | App.tsx:202 | exactly the notifications with that id become read, with every other field kept; the rest are unchanged |
| Store.MarkReadIdempotent | App.tsx:202 | marking the same id twice is marking it once |
| Store.MarkReadCount | App.tsx:202 | the unread count drops by exactly the number of unread notifications with that id, so it never increases |
| Store.MarkAllRead | App.tsx:203 | same length; each notification is kept with `isRead` set |
| Store.MarkAllReadClears | App.tsx:203 | afterwards the unread count is 0 |
| Store.MarkAllReadIdempotent | App.tsx:203 | marking all twice is marking all once |
| Store.AppStore.constructor | App.tsx:104-160 | the initial theme rule, and each list is the saved one when there is one, else the seed data |
| Store.AppStore.ToggleTheme | App.tsx:188 | only the theme changes, to the other one |
| Store.AppStore.UpdateProfile | App.tsx:190 | only the profile changes |
| Store.AppStore.AddTransaction | App.tsx:192 | exactly one transaction is appended at the end; nothing else changes |
| Store.AppStore.DeleteTransaction | App.tsx:193 | the transactions become `Without` the id; nothing else changes |
| Store.AppStore.AddLendRecord | App.tsx:195 | exactly one loan is appended at the end; nothing else changes |
| Store.AppStore.UpdateLendRecord | App.tsx:196-198 | the loans become `ReplaceById` of the update; nothing else changes |
| Store.AppStore.DeleteLendRecord | App.tsx:199 | the loans become `Without` the id; nothing else changes |
| Store.AppStore.Unread | App.tsx:201 | the unread count never exceeds the number of notifications |
| Store.AppStore.MarkAsRead | App.tsx:202 | the notifications become `MarkRead`, the unread count does not grow, nothing else changes |
| Store.AppStore.MarkAllAsRead | App.tsx:203 | the notifications become `MarkAllRead`, the unread count is 0, nothing else changes |
| MonthNav.ShiftMonth | pages/Analytics.tsx:44-46 | `new Date(y, m + d)` read back gives a month in 0..11 whose index is `y * 12 + m + d` |
| MonthNav.IndexDetermines | pages/Dashboard.tsx:68-80 | two in-range months with the same index are the same month |
| MonthNav.MonthCursor.constructor | pages/Dashboard.tsx:18-20 | the cursor starts on today's month |
| MonthNav.MonthCursor.ChangeMonth | pages/Dashboard.tsx:68-80 | for an offset of -1 or +1 the month stays in 0..11 and the index moves by exactly the offset, wrapping the year (the same code at pages/Analytics.tsx:65-77) |
| Gregorian.DaysInMonth | pages/Calendar.tsx:12 | 28 to 31 days, and 29 exactly for February of a leap year |
| Gregorian.MonthLength | pages/Calendar.tsx:12 | the 1st of the next month is `DaysInMonth` days after the 1st of this one |
| Gregorian.NextDay | pages/Calendar.tsx:12 | consecutive days have consecutive day numbers, also across month ends |
| Gregorian.Weekday | pages/Calendar.tsx:13 | the weekday lies in 0..6 |
| Gregorian.Anchors | pages/Calendar.tsx:13 | 1970-01-01 is day 0, a Thursday; 2023-11-01 is day 19662, a Wednesday |
| Lists.Filter | App.tsx:193 | the result keeps exactly the elements that pass, and is no longer than the input |
| Lists.FilterAppend | App.tsx:193 | filtering works piecewise, so the order of what is kept is preserved |
| Lists.FirstIndex | pages/Lend.tsx:72 | `find` stops at the first element that passes, or at the end when none does |
| Lists.SortDesc | pages/Dashboard.tsx:65 | the sorted copy is a permutation of the input, ordered by key from largest to smallest, and stable: the elements of each key keep their input order |
| Lists.InsertFilter | pages/Dashboard.tsx:65 | inserting an element puts it ahead of every element of the same key, so the sort built from it is stable |
| Lists.SortKeepsDistinct | pages/Dashboard.tsx:65 | sorting cannot make two elements agree on a property where none did before |
| Aggregation.MonthlyTransactions | pages/Dashboard.tsx:38-43 | exactly the transactions of the selected month and year are kept (the same filter at pages/Analytics.tsx:20-25) |
| Aggregation.MonthlyAppend | pages/Analytics.tsx:20-25 | the month filter works piecewise, so it keeps the stored order |
| Aggregation.OfKind | pages/Dashboard.tsx:46-52 | exactly the transactions of one kind are kept |
| Aggregation.SumAppend | pages/Dashboard.tsx:46-48 | the sum of a concatenation is the sum of the parts |
| Aggregation.SumByKind | pages/Dashboard.tsx:46-52 | income and expense totals partition the total of all amounts |
| Aggregation.NetIsSignedSum | pages/Dashboard.tsx:54 | income minus expense is the sum of incomes counted positive and expenses counted negative |
| Aggregation.OnePassTotal | pages/Analytics.tsx:50-58 | the window's single filter on month, year and kind gives the same total as filtering by month and then by kind |
| Aggregation.Percentage | pages/Dashboard.tsx:155-156 | the share is defined for a zero total (dividing by 1); otherwise share times total is 100 times the part; a part between 0 and the total gives 0..100 (the outflow bar at pages/Analytics.tsx:106 uses the same rule) |
| Aggregation.Dedup | pages/Analytics.tsx:30-39 | the distinct categories in first-appearance order: no repeats, the same members, and an earlier entry first occurs earlier in the input |
| Aggregation.NamesStep | pages/Analytics.tsx:33-36 | one reduce step keeps the group names unless a new category arrives, which is appended |
| Aggregation.GroupedNames | pages/Analytics.tsx:30-39 | the group names are the distinct categories in first-appearance order |
| Aggregation.GroupedDistinct | pages/Analytics.tsx:30-39 | no two groups share a name |
| Aggregation.GroupedCovers | pages/Analytics.tsx:30-39 | a category has a group exactly when some transaction carries it |
| Aggregation.CategorySumStep | pages/Analytics.tsx:33-36 | a category's total grows by the amount of a new transaction of that category and by nothing else |
| Aggregation.CategorySumAbsent | pages/Analytics.tsx:30-39 | a category no transaction carries totals 0 |
| Aggregation.GroupedValues | pages/Analytics.tsx:30-39 | each group's value is the total of its category |
| Aggregation.SumValuesAppend | pages/Analytics.tsx:36 | pushing a group adds its value to the groups' total |
| Aggregation.SumValuesUpdate | pages/Analytics.tsx:35 | adding to one group's value adds that much to the groups' total |
| Aggregation.GroupedTotal | pages/Analytics.tsx:30-39 | the groups' values add up to the total of the grouped transactions |
| Aggregation.NewestFirst | pages/Transactions.tsx:289 | the list shown is a permutation of the transactions, newest date first, and the transactions of one day keep their stored order |
| Dashboard.MonthlyBalance | pages/Dashboard.tsx:46-54 | the balance is the signed sum of the month's transactions |
| Dashboard.SavingsRate | pages/Dashboard.tsx:55 | 0 without positive income; otherwise rate times income is 100 times the saving, non-negative exactly when expenses do not exceed income, at most 100 |
| Dashboard.Breakdown | pages/Dashboard.tsx:58-66 | the breakdown is sorted by value, largest first, is a permutation of the category groups, and groups of equal value keep their first-appearance order |
| Dashboard.CategorySummary | pages/Dashboard.tsx:58-66 | the dictionary built by `forEach`, listed with `Object.entries` and sorted, is exactly `Breakdown`: the category groups of that kind, sorted largest first |
| Dashboard.SumValuesInsert | pages/Dashboard.tsx:65 | inserting an entry into the sorted list adds its value to the total |
| Dashboard.SumValuesSort | pages/Dashboard.tsx:65 | sorting does not change the entries' total |
| Dashboard.BreakdownDistinct | pages/Dashboard.tsx:58-65 | no category appears twice |
| Dashboard.BreakdownValues | pages/Dashboard.tsx:60-64 | each entry is the month's total of its category for that kind |
| Dashboard.BreakdownNames | pages/Dashboard.tsx:60-64 | a category has an entry exactly when a transaction of that kind in the month carries it |
| Dashboard.BreakdownTotal | pages/Dashboard.tsx:58-66 | the entries add up to the month's total of that kind |
| Dashboard.SharesScale | pages/Dashboard.tsx:155-156 | the shown percentages times the total are 100 times the entries' total |
| Dashboard.SharesOfTotal | pages/Dashboard.tsx:155-156 | percentages of entries that add up to a non-zero total add up to 100 |
| Dashboard.SharesSumTo100 | pages/Dashboard.tsx:155-156 | with a non-zero total, the breakdown's percentages add up to 100 |
| Dashboard.Activity | pages/Dashboard.tsx:221 | the activity list is a permutation of the month's transactions, newest first, those of one day in their stored order |
| Analytics.ExpenseData | pages/Analytics.tsx:30-39 | the mutating reduce gives the category groups of the expenses: one per distinct category in first-appearance order, no repeats, values adding up to the expense total |
| Analytics.HistoricalFlow | pages/Analytics.tsx:42-63 | four entries on consecutive months, the last being the selected month, each with that month's income and expense totals |
| Calendar.MonthDays | pages/Calendar.tsx:12 | day 0 of the next month gives the Gregorian length of the month |
| Calendar.Days | pages/Calendar.tsx:15 | cell i holds day i + 1, so the cells are exactly 1 to the month's length in order |
| Calendar.Padding | pages/Calendar.tsx:16 | one blank cell per weekday before the 1st, fewer than 7 |
| Calendar.DayTransactions | pages/Calendar.tsx:21-28 | exactly the transactions dated that day of the viewed month are kept |
| Calendar.DayWithinMonth | pages/Calendar.tsx:21-28 | a day's list is that day's part of the month's list |
| Calendar.HasKind | pages/Calendar.tsx:55-56 | a day shows an income or expense bar exactly when a transaction of that kind falls on it |
| Calendar.DayTotalUnsigned | pages/Calendar.tsx:68 | the day total adds incomes and expenses alike |
| Calendar.CalendarView.constructor | pages/Calendar.tsx:10 | the view starts on today's month |
| Calendar.CalendarView.PrevMonth | pages/Calendar.tsx:18 | the view moves back exactly one month, wrapping January to December of the previous year |
| Calendar.CalendarView.NextMonth | pages/Calendar.tsx:19 | the view moves on exactly one month, wrapping December to January of the next year |
| Currency.WatchlistButtons | pages/Currency.tsx:103 | the buttons are the available codes other than the base, and never the base |
| Currency.Toggled | pages/Currency.tsx:57-65 | an absent code is appended at the end; a present code is removed, unless it is the only entry |
| Currency.ToggleKeepsDistinct | pages/Currency.tsx:57-65 | a watchlist without repeats stays without repeats |
| Currency.ToggleNeverEmpties | pages/Currency.tsx:58-61 | a watchlist without repeats is never emptied |
| Currency.ToggleTwice | pages/Currency.tsx:57-65 | toggling an absent code twice restores a non-empty watchlist |
| Currency.HistoryTarget | pages/Currency.tsx:37-40 | history is asked for only for a EUR or PKR base, against the other of the two |
| Currency.DisplayValue | pages/Currency.tsx:148 | the value is rate times amount when a non-zero rate is known, and the placeholder otherwise |
| Currency.CurrencyBoard.constructor | pages/Currency.tsx:10-15 | EUR base, watchlist USD, PKR, GBP, amount 1, no rates, no history |
| Currency.CurrencyBoard.ToggleTarget | pages/Currency.tsx:57-65 | the watchlist becomes `Toggled` and stays non-empty and without repeats; nothing else changes |
| Currency.CurrencyBoard.ReceiveRates | pages/Currency.tsx:23-26 | rates are replaced only when the fetch returned data |
| Currency.CurrencyBoard.ReceiveHistory | pages/Currency.tsx:41-44 | the history is replaced only by a non-empty one |
| LoanQuote.InterestAmount | pages/LoanRequest.tsx:29 | the interest is 4.2 % of the amount, between 0 and the amount for a non-negative amount |
| LoanQuote.TotalRepay | pages/LoanRequest.tsx:30 | the total is 1.042 times the amount |
| LoanQuote.MonthlyInstallment | pages/LoanRequest.tsx:31 | installment times term is the total to repay |
| LoanQuote.CardMatchesSelection | pages/LoanRequest.tsx:115-116 | the card of the selected term shows the selected monthly installment |
| LoanQuote.LongerTermSmallerInstallment | pages/LoanRequest.tsx:115-116 | a longer term gives a strictly smaller installment for a positive amount |
| LoanQuote.TermLabel | pages/LoanRequest.tsx:34-38 | 3 months is "Minimal Interest", 6 is "Balanced Term", every other term "Lowest Installment" |
| LoanQuote.OfferedTerms | pages/LoanRequest.tsx:9 | the initial term 6 is one of the offered terms 3, 6 and 12; every offered term is positive, and the three cards get three different labels |
| LoanQuote.SliderProgress | pages/LoanRequest.tsx:88 | within the slider's 100..5000 the bar is 0..100 % full, empty exactly at 100 and full exactly at 5000 |
| LoanQuote.SliderMonotone | pages/LoanRequest.tsx:88 | a larger amount fills more of the bar |
| EntryForm.Blank | pages/Transactions.tsx:51 | the reset form has empty amount, category and description, type expense, today's date |
| EntryForm.Entry | pages/Transactions.tsx:43-50 | the transaction carries the form's category, type, description and date, the parsed amount and the fresh id |
| EntryForm.EntryFormView.constructor | pages/Transactions.tsx:23-37 | a type in the address preselects that type and opens the form; otherwise an empty expense form stays closed |
| EntryForm.EntryFormView.Submit | pages/Transactions.tsx:39-53 | with an empty amount or category nothing changes; otherwise exactly one transaction is appended to the store and the form is reset and closed |
| EntryForm.ListView | pages/Transactions.tsx:289 | the list shown is the stored transactions newest first, those of one day in their stored order, and the stored list is not reordered |

## Left out

- I/O is not modelled: browser storage and its JSON parsing (App.tsx:136-186), the rate, history and AI services (services/geminiService.ts is not part of this model), and the camera, file import and scanning flows of the transactions page. Their results enter as parameters: `Option` values for saved state and fetched rates, and given ids and dates.
- Random ids (`Math.random`) and `parseFloat` of the amount fields are parameters of the methods that use them.
- Amounts and rates are exact reals. IEEE-754 rounding, `NaN` and `Infinity` are not modelled.
- Number formatting (`toLocaleString`, `toFixed`) and the month labels of the window are not modelled. `FlowPoint` carries the year and month instead of the label.
- Dates are already-parsed (year, month, day) triples. The time zone shift of parsing `YYYY-MM-DD` strings as UTC and reading them back in local time is not modelled. Years 0–99, which `new Date(y, m)` maps to 1900–1999, are not treated specially.
- `Dashboard.CategorySummary`: models the dictionary as the sequence of its entries in insertion order. It does not model two things:
  - JavaScript lists integer-like keys first in `Object.entries`;
  - a category named like an inherited object member (for example `constructor`) reads a non-numeric value from `summary[...]`.
- `Lending.Contribution`, `Lending.HandleAddRepayment`, `Lending.SubmitRepayment`: require positive repayment rates, which the code does not check. A zero rate would divide by zero for EUR loans.
- `Lending.RepaidConsistent`, `Lending.HistoryConsistent`, `Lending.SubmitRepayment`: the status invariant is stated for non-negative repayments only. The repayment field accepts negative numbers, and a negative repayment can bring a `partial` loan's total to 0 or below while its status stays `partial`.
- The progress bar of a loan (pages/Lend.tsx:188) divides by the principal and is not modelled. It is undefined for a principal of 0.
- `LoanQuote.MonthlyInstallment`: requires a positive term. The page only ever sets 3, 6 or 12, all positive (`LoanQuote.OfferedTerms`).
- `EntryForm.EntryFormView.constructor`: takes the address `type` as an already-checked kind. The code casts any string.
- Plain setters are not modelled: the form fields, the base currency and amount of the currency page, the dashboard's income/expense toggle, the selected loan term and the open/closed state of the lending page's dialogs.
- Pages outside the bookkeeping core are not part of this model: the menu, layout, AI studio and payments pages, and the application's error boundary.

Where the lemmas use `Names(...)`, `Categories(...)` or `ReadFlags(...)`, these are the name, category and `isRead` columns of a list.
