# fintracker ledger core in Dafny

This project models the ledger logic of fintracker, a personal finance tracker.
The logic lives in its background jobs, its server actions and its form schemas:

- **Recurring transactions** (`lib/inngest/function.js`). The daily scan selects the due recurring templates and emits one event per template. For each event, the processing job replays every missed occurrence of the template. It then commits atomically: it inserts one-off copies, moves the account balance by their signed total, and re-stamps the template. The interval step (`calculateNextRecurringDate`) follows JavaScript `Date` arithmetic, so January 31 plus one month is March 3, or March 2 in a leap year.
- **Budget alerts** (`lib/inngest/function.js`). For every budget whose owner has a default account, the job sums this month's expenses on that account. At 80% use it sends an email and stamps `lastAlertSent`, so a budget gets at most one alert per calendar month.
- **Monthly statistics** (`getMonthlyStats`). This is the reduce that builds totals, per-category figures and a count.
- **Server actions**:
  - `updateDefaultAccount`, `getAccountWithTransactions` and `bulkDeleteTransactions` (`actions/accounts.js`). A bulk delete reverses each deleted row's effect on its account's balance.
  - `createAccount`, `getUserAccount` and `getDashboardData` (`actions/dashboard.js`). The first account, or one asked to be, becomes the user's only default.
  - `getCurrentBudget` and `updateBudget` (`actions/budget.js`). There is one budget per user, and the month's expenses are summed over the query's month window, which ends at midnight of the month's last day.
- **Form schemas** (`app/lib/schema.js`). `accountSchema` and `transactionSchema` follow zod's field semantics, including the refinement that a recurring transaction must name its interval.

## How it is modelled

- **Store.** The database is a `Ledger` class holding one map per table, keyed by id, plus an id counter. Its invariant `Valid` says every row is stored under its own id, there is one budget per user and at most one default account per user; every action that writes keeps it.
  - Amounts and balances are whole cents.
  - Timestamps are integer seconds in one fixed calendar (UTC).
  - A calendar day is `t / 86400`.
  - Civil dates follow ECMAScript's `MakeDay`. Any month or day number is normalised, as `setMonth`, `setDate` and `new Date(y, m, d)` do.
- **Actions that change the store** are methods with `modifies store`. Each states the whole new store in terms of a specification function, and the laws are proved about those functions.
- **Queries** return listings. A listing is a list holding each selected row once, ordered by the query's `orderBy` field.
- **Errors.**
  - An action that rethrows returns `Result` (`Err(msg)`).
  - An action that catches returns `Reply` (`Failure(error)`).
  - The "user not found" message is each action's own: "User not Found", "User not found" or "User Not found".
- **Parameters.** Authentication is the caller's session id, resolved against the users table. The time of a call is a parameter `now`.

| module | file | models |
|---|---|---|
| Results | results.dfy | the Option, Result and Reply shapes |
| Listing | listing.dfy | ordered listings, least element of an id set |
| Sums | sums.dfy | sums over maps and sequences, filters |
| Store | store.dfy | tables, invariants, user resolution |
| Calendar | calendar.dfy | days, civil dates, month windows |
| Recurring | recurring.dfy | interval step, due filter, catch-up, commit |
| Alerts | alerts.dfy | budget-alert decision and job |
| Reports | reports.dfy | monthly statistics reduce |
| Numbers | numbers.dfy | `parseFloat` on the balance text |
| Accounts | accounts.dfy | default account, account view, bulk delete |
| Dashboard | dashboard.dfy | account creation, account and transaction listings |
| Budgets | budget.dfy | current budget and month expenses, budget upsert |
| Schema | schema.dfy | account and transaction form validation |

## Model

| member | source | states |
|---|---|---|
| Store.ResolveUser | actions/accounts.js:23-32 | no session id is "Unauthorized"; an unknown id gives the action's own not-found message; otherwise the user's row |
| Store.SignedAmount | lib/inngest/function.js:212-215 | an expense moves a balance by minus its amount, income by plus its amount |
| Listing.SortedIdsDesc | actions/dashboard.js:92-94 | returns every row passing the filter, each once and nothing else, in non-increasing order of the sort key |
| Calendar.TimeInDay | lib/inngest/function.js:185-186 | the seconds since midnight are in [0, 86400) and recombine with the day to give the timestamp |
| Calendar.DayStartBounds | lib/inngest/function.js:185-188 | comparing a timestamp with a midnight is comparing calendar days |
| Calendar.ToCivilMakeDay | actions/budget.js:30-34 | building a valid civil date and reading its parts back returns the same date |
| Calendar.FromCivilInjective | lib/inngest/function.js:94-98 | two valid civil dates naming the same day are equal |
| Calendar.MakeDayNextDay | lib/inngest/function.js:244 | asking for day d+1 of any month gives the day after day d |
| Calendar.MakeDayNextMonth | lib/inngest/function.js:250 | asking for month m+1 lands DaysInMonth(m) days later, in the following month |
| Calendar.MakeDayNextYear | lib/inngest/function.js:253 | asking for the same month and day in the next year lands a year's worth of days later |
| Calendar.MonthWindowExact | actions/budget.js:30-39 | a timestamp is in a month's window iff its civil year and month are that month's |
| Calendar.MonthWindowAsWrittenGap | actions/budget.js:35-51 | the window as written (up to the last day at 00:00 inclusive) equals the exact window minus the last day after midnight |
| Calendar.MonthWindowAsWrittenCivil | actions/budget.js:30-51 | an instant is in the window as written iff it is in the month and not on the month's last day after midnight |
| Calendar.LastDayAfterMidnightMissed | actions/budget.js:35-51 | one second after midnight on a month's last day is in the month but outside the window as written |
| Recurring.IntervalFor | lib/inngest/function.js:242-256 | each of DAILY, WEEKLY, MONTHLY, YEARLY maps to its interval, and nothing else maps to any |
| Recurring.AddMonth | lib/inngest/function.js:249-251 | lands on the day MakeDay(year, month+1, day) gives (overflow rolls on, no clamping), at the same time of day, on a later day |
| Recurring.AddYear | lib/inngest/function.js:252-254 | lands on MakeDay(year+1, month, day), at the same time of day, on a later day |
| Recurring.Advance | lib/inngest/function.js:242-254 | every interval step moves to a later calendar day at the same time of day |
| Recurring.NextRecurringDate | lib/inngest/function.js:239-259 | succeeds iff the interval is one of the four names; then strictly later at the same time of day; otherwise the error "Invalid recurring interval" |
| Recurring.DailyAndWeeklyStep | lib/inngest/function.js:243-248 | DAILY adds 86400 seconds and WEEKLY adds 7 times that |
| Recurring.MonthlyKeepsDay | lib/inngest/function.js:249-251 | when the next month has the day, the step keeps the day-of-month |
| Recurring.MonthlyOverflows | lib/inngest/function.js:249-251 | when it does not, the excess days roll into the month after |
| Recurring.JanuaryThirtyFirstPlusOneMonth | lib/inngest/function.js:249-251 | January 31 plus one month is March 3, or March 2 in a leap year |
| Recurring.YearlyKeepsDate | lib/inngest/function.js:252-254 | any date but February 29 keeps its month and day |
| Recurring.YearlyFromLeapDay | lib/inngest/function.js:252-254 | February 29 steps to March 1 of the next year |
| Recurring.SameDateNextYear | lib/inngest/function.js:252-254 | a date other than February 29 exists next year and the step lands on it |
| Recurring.LeapDayOneYearLater | lib/inngest/function.js:252-254 | February 29 of a leap year, one year on, is March 1 |
| Recurring.LeapDayNextYear | lib/inngest/function.js:252-254 | after a leap year, asking for February 29 gives March 1 |
| Recurring.SelectedIsDue | lib/inngest/function.js:262-271 | every template the daily scan selects passes the job's own due test |
| Recurring.DueButNotSelected | lib/inngest/function.js:112-118 | the scan and the due test differ exactly on a processed template with no next date |
| Recurring.TriggerRecurringTransactions | lib/inngest/function.js:107-137 | one event per selected template, carrying its id and owner, no duplicates and no others; triggered is their number |
| Recurring.IntervalStepsMoveOn | lib/inngest/function.js:239-259 | every interval step moves to a later calendar day |
| Recurring.StepsIncreasing | lib/inngest/function.js:183-203 | successive steps from a date are strictly increasing |
| Recurring.StepsAdvance | lib/inngest/function.js:201-202 | the (k+1)th step is one step after the kth |
| Recurring.Occurrences | lib/inngest/function.js:176-203 | the loop ends past now and not before its start; every kept date lies between start and now on a day before today |
| Recurring.OccurrencesUnfold | lib/inngest/function.js:183-203 | one turn of the loop: keep the date iff its day is before today, then step |
| Recurring.OccurrencesAreSteps | lib/inngest/function.js:183-203 | the kept dates are the first steps in order; the date after them is today (then stepped past) or is past now |
| Recurring.ConsecutiveOccurrences | lib/inngest/function.js:183-203 | consecutive kept dates are exactly one step apart |
| Recurring.OccurrencesStopFirst | lib/inngest/function.js:183-203 | the loop stops at the first step past now |
| Recurring.WeeklyCatchUpExample | lib/inngest/function.js:176-203 | a weekly template 20 days on materialises two dates and moves to day 21 |
| Recurring.CatchUp | lib/inngest/function.js:176-203 | fails iff the loop runs (start not after now) with an unknown interval; otherwise ends past now and not before the start |
| Recurring.DraftsFor | lib/inngest/function.js:189-198 | one draft per kept date, in the same order |
| Recurring.DraftsCopyTemplate | lib/inngest/function.js:189-198 | a draft has its own date, isRecurring false, the template's type, amount, category, owner and account, and the description with " (Recurring)" |
| Recurring.TotalAmountOfTemplate | lib/inngest/function.js:212-215 | the drafts' total is their number times the template's signed amount |
| Recurring.InsertedRows | lib/inngest/function.js:207-209 | one row per draft under consecutive fresh ids, each the draft's row |
| Recurring.TotalAmountIsRowSum | lib/inngest/function.js:205-221 | the balance increment equals the signed sum of the inserted rows |
| Recurring.StampedNotDue | lib/inngest/function.js:225-231 | a stamped template is neither due nor selected at the same now |
| Recurring.ReplayDrafts | lib/inngest/function.js:176-203 | the loop computes the catch-up (or its error) and the drafts of the kept dates |
| Recurring.Commit | lib/inngest/function.js:174-232 | inserts the rows, adds the total to the account when there are drafts, stamps the template; a missing account rolls all back |
| Recurring.ProcessRecurringTransaction | lib/inngest/function.js:153-235 | missing event data, a missing/foreign/not-due template, an interval error and a rollback leave the store unchanged; otherwise the commit above |
| Recurring.ProcessTwice | lib/inngest/function.js:153-235 | two runs for the same event at the same now leave the store as the first run alone does; after a processed run the second is skipped, otherwise it ends as the first did |
| Alerts.SameMonthIsWindow | lib/inngest/function.js:94-99 | isNewMonth is false iff the last alert lies in the window of now's month |
| Alerts.ZeroBudgetAlertsAsWritten | lib/inngest/function.js:54-64 | a zero budget with positive spending alerts as written, and is skipped as intended |
| Alerts.ShouldAlertMeaning | lib/inngest/function.js:56-64 | a zero budget never alerts; a positive one alerts iff expenses are at least 80% of it |
| Alerts.NoSecondAlertThisMonth | lib/inngest/function.js:62-87 | once stamped, neither the decision as written nor the intended one alerts before the next month starts, whatever the spending |
| Alerts.AlertAgainNextMonth | lib/inngest/function.js:62-64 | from the next month on, the stamp no longer holds an alert back: at 80% use the decision as written alerts, and so does the intended one for a non-zero budget |
| Alerts.DefaultAccountOf | lib/inngest/function.js:15-32 | none iff the user has no default account; otherwise one of theirs, the only one when defaults are unique |
| Alerts.AlertWindowStart | lib/inngest/function.js:36-37 | the first of now's month at now's time of day, not after now |
| Alerts.AfterAlerts | lib/inngest/function.js:28-88 | exactly the budgets the decision as written selects (owner with a default account, expenses on it since the first of the month) get lastAlertSent = now; the others are unchanged |
| Alerts.ZeroBudgetStamped | lib/inngest/function.js:54-87 | the job as written stamps a zero budget with no earlier alert once anything is spent this month, which the intended decision would skip |
| Alerts.AfterAlertsValid | lib/inngest/function.js:84-87 | the table keeps its ids and one budget per user |
| Alerts.AlertsIdempotent | lib/inngest/function.js:62-87 | a second run at the same now changes nothing |
| Alerts.AlertedStaysQuiet | lib/inngest/function.js:62-87 | an alerted budget is not due again later in the same month, whatever the store then holds |
| Alerts.StampAlerts | lib/inngest/function.js:28-88 | the loop stamps exactly the due budgets and reports exactly those |
| Alerts.CheckBudgetAlerts | lib/inngest/function.js:11-90 | one run changes only the budgets table, to the table AfterAlerts gives, and alerts exactly the budgets the decision as written selects |
| Reports.CategoryOf | lib/inngest/function.js:383 | an empty category is filed under "Uncategorized", any other under itself |
| Reports.ReduceExpenses | lib/inngest/function.js:381-385 | the reduce adds exactly the expense rows to the expense total and keeps the count |
| Reports.ReduceIncome | lib/inngest/function.js:386-388 | the reduce adds every non-expense row to the income total |
| Reports.ReduceCategoryKeys | lib/inngest/function.js:381-385 | the categories are the initial ones plus those of the expense rows |
| Reports.ReduceCategoryFigure | lib/inngest/function.js:381-385 | each category grows by the sum of its own expense rows |
| Reports.ReduceCategoriesAddUp | lib/inngest/function.js:381-385 | the category figures grow by exactly what the expense total grows by |
| Reports.MonthRowsWindow | lib/inngest/function.js:366-375 | a row is fetched iff it is the user's, dated in the month's calendar month, and not on the month's last day after midnight (the `lte` bound as written) |
| Reports.TotalsOfListing | lib/inngest/function.js:378-397 | in any order of the fetched rows, the totals are the table's sums and the count is its size |
| Reports.CategoryKeysOfListing | lib/inngest/function.js:378-397 | the categories are the table's expense categories |
| Reports.CategoryFigureOfListing | lib/inngest/function.js:378-397 | each category's figure is the sum of the table's expense rows under it |
| Reports.CategoriesAddUp | lib/inngest/function.js:378-397 | totalExpenses equals the sum of the byCategory values |
| Reports.GetMonthlyStats | lib/inngest/function.js:365-399 | the statistics of the user's month: totals, count, categories and figures, categories adding up to the expense total |
| Accounts.ClearDefaults | actions/accounts.js:35-40 | the user has no default left; only default flags of the user's accounts change |
| Accounts.ClearDefaultsKeepsOneDefault | actions/accounts.js:35-40 | at most one default per user is preserved |
| Accounts.SetDefaultOnlyDefault | actions/accounts.js:35-51 | succeeds iff the account exists and is the caller's, and is then the caller's only default; on failure the caller has no default |
| Accounts.SetDefaultOthersUntouched | actions/accounts.js:35-51 | other users' accounts are untouched, no account appears or goes, only default flags change |
| Accounts.SetDefaultKeepsOneDefault | actions/accounts.js:35-51 | at most one default per user is preserved |
| Accounts.SetDefaultKeepsIds | actions/accounts.js:43-51 | the accounts table stays well formed |
| Accounts.UpdateDefaultAccount | actions/accounts.js:21-61 | errors are returned as failures with the store unchanged; otherwise the store's accounts become SetDefault's |
| Accounts.GetAccountWithTransactions | actions/accounts.js:63-99 | null iff the account is missing or not the caller's; else the account, all its rows once each by date descending, and their count |
| Accounts.Reversal | actions/accounts.js:122-124 | deleting a row moves its account by minus the row's signed amount |
| Accounts.ChangesKeys | actions/accounts.js:121-129 | the reduce has an entry for exactly the accounts of the rows |
| Accounts.ChangesFigure | actions/accounts.js:121-129 | each account's entry is the sum of the reversals of its own rows |
| Accounts.ChangesOfListing | actions/accounts.js:114-129 | in any order of the selected rows, the reduce computes the balance changes |
| Accounts.ChangeOfListing | actions/accounts.js:121-129 | one account's change is the sum of reversals over the selected rows |
| Accounts.BalanceChanges | actions/accounts.js:121-129 | has an entry for exactly the accounts owning a selected row |
| Accounts.NoChangeWithoutRows | actions/accounts.js:147-159 | an account owning no deleted row has nothing to reverse |
| Accounts.Adjusted | actions/accounts.js:147-159 | accounts named in the changes get their change added to the balance; nothing else changes |
| Accounts.ApplyChanges | actions/accounts.js:147-159 | the loop succeeds iff every changed account exists, and then yields the adjusted table |
| Accounts.BulkDeleteTransactions | actions/accounts.js:101-177 | removes exactly the caller's listed rows and adjusts each owning account; a missing account fails with nothing changed |
| Accounts.DeleteKeepsOpeningBalance | actions/accounts.js:121-159 | after the delete, each account's balance less its remaining rows' effect equals what it was before |
| Accounts.ReversalNegates | actions/accounts.js:121-129 | the reversals sum to minus the rows' signed effect |
| Accounts.DeleteRemovesOnlySelected | actions/accounts.js:136-143 | a row remains iff it is not both listed and the caller's, and remaining rows are unchanged |
| Numbers.LiteralNaN | actions/dashboard.js:36-37 | a literal is NaN iff no digit, or point and digit, starts it |
| Numbers.NaNExactly | actions/dashboard.js:36-39 | parseFloat gives NaN iff no number starts after the white space and sign |
| Numbers.CentsTextRoundTrip | actions/dashboard.js:36-39 | an amount written with two decimals parses back to that amount in cents |
| Dashboard.ShouldBeDefault | actions/dashboard.js:42-48 | default iff requested or the user has no accounts yet |
| Dashboard.WithAccount | actions/dashboard.js:50-66 | adds the account; a default one is then the user's only default; a non-default one changes nothing else |
| Dashboard.WithAccountKeepsOneDefault | actions/dashboard.js:50-66 | at most one default per user is preserved |
| Dashboard.CreatedAccount | actions/dashboard.js:36-66 | created iff the balance parses to a finite number; the caller's account with the parsed balance and the default rule above |
| Dashboard.CreateKeepsOneDefault | actions/dashboard.js:50-66 | creating, or failing to, keeps at most one default per user |
| Dashboard.CreateNonDefaultTouchesNothing | actions/dashboard.js:48-57 | a non-default account leaves every existing account as it was |
| Dashboard.CreateAccount | actions/dashboard.js:22-78 | unknown users and unparsable balances are errors that write nothing; otherwise the store becomes the creation outcome |
| Dashboard.CreateParsed | actions/dashboard.js:41-66 | the writes after parsing give the creation outcome and use one id |
| Dashboard.ClearUserDefaults | actions/dashboard.js:50-57 | the store's accounts become ClearDefaults' |
| Dashboard.InsertAccount | actions/dashboard.js:59-66 | the row goes in under the next id, keeping one default per user when a default row comes after the user's defaults were cleared |
| Dashboard.NewRowKeepsOneDefault | actions/dashboard.js:50-66 | a new row keeps at most one default per user when it is not a default or its user has none |
| Dashboard.GetUserAccount | actions/dashboard.js:81-108 | the caller's accounts only, each once, newest first, each with its transaction count |
| Dashboard.GetDashboardData | actions/dashboard.js:111-129 | the caller's transactions only, each once, newest first |
| Budgets.BudgetOf | actions/budget.js:22-26 | none iff the user has no budget row; otherwise one of the user's rows |
| Budgets.BudgetOfUnique | actions/budget.js:22-26 | with one budget per user, the row found is the user's budget |
| Budgets.MonthExpenseOnWindow | actions/budget.js:30-57 | a row is summed iff it is the user's expense on the account in now's calendar month and not on the month's last day after midnight (the `lte` bound as written) |
| Budgets.GetCurrentBudget | actions/budget.js:8-71 | the user's budget (or none) and the sum of the expense amounts on the account within the query's month window |
| Budgets.NoExpensesIsZero | actions/budget.js:62-64 | a month with no matching rows reports 0 |
| Budgets.UpsertSetsBudget | actions/budget.js:87-98 | the user then has exactly one budget, with the new amount; an existing row keeps its id and last alert |
| Budgets.UpsertKeepsOthers | actions/budget.js:87-98 | one budget per user is kept and other users' budgets are untouched |
| Budgets.UpdateBudget | actions/budget.js:72-110 | errors are returned as failures with the store unchanged; otherwise the budgets table becomes the upsert's |
| Schema.MinText | app/lib/schema.js:5 | a string passes iff non-empty; an empty one is reported with the schema's message; a non-string aborts |
| Schema.Enum | app/lib/schema.js:6 | passes iff one of the options; anything else aborts |
| Schema.FlagOr | app/lib/schema.js:8 | a boolean or nothing passes, nothing reading as the default |
| Schema.OptionalText | app/lib/schema.js:16 | a string or nothing passes |
| Schema.DateOr | app/lib/schema.js:17 | a valid date or nothing passes, nothing reading as now |
| Schema.OptionalEnum | app/lib/schema.js:21-22 | one of the options or nothing passes |
| Schema.AccountAcceptedExactly | app/lib/schema.js:4-10 | an account form passes iff name and balance are non-empty strings, the type is CURRENT or SAVINGS, isDefault a boolean or absent |
| Schema.AccountAcceptedData | app/lib/schema.js:4-10 | the accepted data are the submitted values, isDefault false when absent |
| Schema.EmptyAccountFieldsReported | app/lib/schema.js:5-7 | an empty name or balance is reported with its message |
| Schema.TransactionFields | app/lib/schema.js:13-22 | the object has a value iff every field has its type; field checks never add the refinement's issue |
| Schema.TransactionFieldsClean | app/lib/schema.js:13-22 | no field issue iff every field has its type and the required strings are non-empty |
| Schema.TransactionAcceptedExactly | app/lib/schema.js:13-31 | a transaction passes iff every field has its type, the required strings are non-empty and a recurring one names an interval |
| Schema.TransactionDefaults | app/lib/schema.js:16-21 | absent date is now, absent isRecurring is false, absent description and interval stay absent |
| Schema.AcceptedRecurringSchedules | app/lib/schema.js:20-31 | an accepted recurring transaction's interval never makes the interval step fail |
| Schema.IntervalIssueOnce | app/lib/schema.js:23-31 | the refinement's issue appears once iff fields are well typed and a recurring transaction has no interval, and never otherwise |
| Schema.EmptyTransactionFieldsReported | app/lib/schema.js:15-19 | an empty amount, account or category is rejected and reported with its message |

## Left out

- Email, the Gemini insight call and its fallback list, the monthly report job that drives `getMonthlyStats` (its month and month-name formatting), `revalidatePath`, the Inngest throttle and cron registration: I/O or framework configuration with no effect on the store.
- Authentication: the session id is a parameter resolved against the users table; `checkUser` is not part of this model.
- Concurrency, step retries and isolation: each `db.$transaction` is one atomic method; outside them the steps of an action run in order with no interleaving.
- Floating point: amounts and balances are whole cents, and `Number()`/`toNumber()` conversions are identities.
- `serializeTransaction`: it only converts decimals to numbers, which is the identity on whole cents, so rows are returned as stored.
- Time zones and `toDateString`: one fixed UTC calendar.
- Row ids: the database's generated ids are drawn from the store's counter.
- `createAccount`'s reply key `succes` and the serialised shape: the model returns the created account.
- Alerts.DefaultAccountOf: when a user has several default accounts the job takes `accounts[0]` in database order; the model takes the lowest id.
- Budgets.BudgetOf: `findFirst` without `orderBy` may return any of several rows; the model takes the lowest id (with the unique key there is only one).
- Recurring.RowOf: the status of the inserted copies is the table's default, not visible in this source; the model assumes COMPLETED.
- Reports.ReduceCategoryKeys: `byCategory` is modelled as a map from category names to cents. In the source it is a plain object literal (lib/inngest/function.js:394). Names that are built-in object properties behave differently there: assigning to `__proto__` is ignored, and reading `constructor`, `toString`, `valueOf` and the like yields an inherited function. So an expense category `__proto__` gets no key in the source, while the model gives it one.
- Reports.ReduceCategoryFigure: for a category named after a built-in object property, the source's figure is not the sum: `constructor` gives a string concatenation, and `__proto__` gives no figure at all. The model sums as for any other name.
- Reports.ReduceCategoriesAddUp: in the source, an expense filed under `__proto__` counts in `totalExpenses` but in no figure, so the equality fails for that name. The model treats it as an ordinary key.
- Reports.CategoryKeysOfListing: the same built-in-property gap as Reports.ReduceCategoryKeys.
- Reports.CategoryFigureOfListing: the same built-in-property gap as Reports.ReduceCategoryFigure.
- Reports.CategoriesAddUp: the same built-in-property gap as Reports.ReduceCategoriesAddUp.
- Reports.GetMonthlyStats: its `byCategory` ensures hold for every category name except the built-in object properties above.
- Store.RecordNotFound: the error an update by a missing id raises. It stands for the last sentence of the database client's message, not its full text; Accounts.UpdateDefaultAccount, Accounts.BulkDeleteTransactions and Recurring.Commit report it.
- Numbers.ParseFloat: the decimal literal is kept exactly; binary rounding, overflow to Infinity for huge literals and the precision of the stored decimal are not modelled, and a balance is truncated to whole cents.
- Dashboard.CreateAccount: an infinite balance passes the NaN check and is refused by the database at `create`; the message ("Invalid value for argument `balance`") stands for the client library's wording.
- Schema: zod's generated messages (wrong type, unknown enum value, invalid date) are not modelled; such issues carry no message. A submitted value that is not an object is not modelled.
- Accounts.UpdateDefaultAccount: the two writes are not atomic, so a failed `update` leaves the user with no default account; the model states this rather than rolling back.
- The interval step follows the code's `setMonth` overflow (January 31 + 1 month = March 3), not clamping to the month's last day.

## Findings

The actions and the alert job are modelled as written; the intended decision and the exact month window are defined beside them, with their properties proved.

| source | as written | input that shows it | evidently intended | confidence | as-written member | corrected member |
|---|---|---|---|---|---|---|
| lib/inngest/function.js:54-64 | `budget.amount === 0` compares a stored decimal with the number 0, so the guard never skips | a budget of 0 with 1 cent of expenses: the quotient is Infinity and an alert is sent | a zero budget is skipped and never alerts | not executed | Alerts.ZeroBudgetStamped | Alerts.ShouldAlertMeaning |
| actions/budget.js:35-51 | the window ends `lte` the month's last day at 00:00 | an expense at 00:00:01 on the last day of the month is not summed (the same bounds in `getMonthlyStats`, lib/inngest/function.js:366-375) | the whole last day is in the month | not executed | Calendar.LastDayAfterMidnightMissed | Calendar.MonthWindowExact |
