/**
  The budget-alert job: for every budget whose owner has a default account,
  the expenses booked on that account since the first of the month are
  compared with the budget; at 80% use an email goes out and the budget is
  stamped with the time of the alert, so that at most one alert goes out per
  budget and calendar month.  The email itself has no effect on the store.
 */
module Alerts {
  import opened Results
  import opened Calendar
  import opened Sums
  import opened Store
  import opened Listing

  /** `isNewMonth`: the two instants fall in different calendar months (the month or the year differs). */
  predicate IsNewMonth(last: int, now: int) {
    CivilOf(last).month != CivilOf(now).month || CivilOf(last).year != CivilOf(now).year
  }

  /** An instant is in the same month as `now` exactly when it lies in the window of now's calendar month. */
  lemma SameMonthIsWindow(last: int, now: int)
    ensures !IsNewMonth(last, now) <==> InMonthWindow(last, CivilOf(now).year, CivilOf(now).month)
  {
    MonthWindowExact(last, CivilOf(now).year, CivilOf(now).month);
  }

  /**
    `totalExpenses / budgetAmount * 100 >= 80`, read over exact numbers: the
    inequality cross-multiplied by the amount, flipped for a negative amount.
    Over a zero amount the quotient is +Infinity for positive expenses (the
    test passes), NaN for zero expenses and -Infinity for negative ones (it fails).
   */
  predicate UsageAtLeast80(expenses: int, amount: int) {
    if amount > 0 then 100 * expenses >= 80 * amount
    else if amount < 0 then 100 * expenses <= 80 * amount
    else expenses > 0
  }

  /**
    The decision as written.  The guard `budgetAmount === 0` compares the
    stored decimal (a string once the step result is serialised) with the
    number 0, so it never skips anything: a zero budget reaches the division.
   */
  predicate ShouldAlertAsWritten(expenses: int, amount: int, lastAlertSent: Option<int>, now: int) {
    UsageAtLeast80(expenses, amount) && (lastAlertSent.None? || IsNewMonth(lastAlertSent.value, now))
  }

  /** The decision as intended: a zero budget is skipped, otherwise the decision as written. */
  predicate ShouldAlert(expenses: int, amount: int, lastAlertSent: Option<int>, now: int) {
    amount != 0 && ShouldAlertAsWritten(expenses, amount, lastAlertSent, now)
  }

  /** A zero budget with any positive spending alerts as written, and is skipped as intended. */
  lemma ZeroBudgetAlertsAsWritten(now: int)
    ensures ShouldAlertAsWritten(1, 0, None, now)
    ensures !ShouldAlert(1, 0, None, now)
  {
  }

  /** The intended decision never alerts on a zero budget, and alerts on a positive one at 80% use. */
  lemma ShouldAlertMeaning(expenses: int, amount: int, now: int)
    ensures !ShouldAlert(expenses, 0, None, now)
    ensures amount > 0 ==> (ShouldAlert(expenses, amount, None, now) <==> 5 * expenses >= 4 * amount)
  {
  }

  /** Once stamped, a budget gets no second alert before the first midnight of the next month, whatever the spending. */
  lemma NoSecondAlertThisMonth(expenses: int, amount: int, stamped: int, later: int)
    requires stamped <= later < StartOfMonth(CivilOf(stamped).year, CivilOf(stamped).month + 1)
    ensures !ShouldAlertAsWritten(expenses, amount, Some(stamped), later)
    ensures !ShouldAlert(expenses, amount, Some(stamped), later)
  {
    var c := CivilOf(stamped);
    MonthWindowExact(stamped, c.year, c.month);
    MonthWindowExact(later, c.year, c.month);
  }

  /** From the first midnight of the next month on, the stamp no longer holds an alert back. */
  lemma AlertAgainNextMonth(expenses: int, amount: int, stamped: int, later: int)
    requires later >= StartOfMonth(CivilOf(stamped).year, CivilOf(stamped).month + 1)
    requires UsageAtLeast80(expenses, amount)
    ensures ShouldAlertAsWritten(expenses, amount, Some(stamped), later)
    ensures amount != 0 ==> ShouldAlert(expenses, amount, Some(stamped), later)
  {
    var c := CivilOf(stamped);
    MonthWindowExact(later, c.year, c.month);
  }

  /**
    `budget.user.accounts[0]` under `where: { isDefault: true }`: one of the
    owner's default accounts (the lowest id when there are several), if any.
   */
  function DefaultAccountOf(accounts: map<AccountId, Account>, u: UserId): (r: Option<AccountId>)
    ensures r.None? <==> DefaultAccounts(accounts, u) == {}
    ensures r.Some? ==> r.value in accounts && accounts[r.value].userId == u && accounts[r.value].isDefault
    ensures r.Some? && OneDefaultPerUser(accounts) ==> DefaultAccounts(accounts, u) == {r.value}
  {
    var defaults := DefaultAccounts(accounts, u);
    if defaults == {} then None else Some(LeastOf(defaults))
  }

  /**
    `startDate.setDate(1)` on the current instant: the first of now's month at
    now's time of day, which is never after now.
   */
  function AlertWindowStart(now: int): (r: int)
    ensures CivilOf(r) == Civil(CivilOf(now).year, CivilOf(now).month, 1)
    ensures TimeInDay(r) == TimeInDay(now)
    ensures r <= now
  {
    var c := CivilOf(now);
    var first := MakeDay(c.year, c.month, 1);
    ToCivilMakeDay(c.year, c.month, 1);
    MakeDayInYear(c.year, c.month, 1);
    MakeDayInYear(c.year, c.month, c.day);
    DayOfAtTime(first, TimeInDay(now));
    AtTime(first, TimeInDay(now))
  }

  /** The rows the job sums for a budget: the owner's EXPENSE rows on `account` dated from `start` on. */
  function AlertExpenseFilter(u: UserId, account: AccountId, start: int): Transaction -> bool {
    (t: Transaction) => t.userId == u && t.accountId == account && t.kind == Expense && t.date >= start
  }

  /** The expenses the job sums for a budget of `u` with default account `a`. */
  function AlertExpenses(transactions: map<TransactionId, Transaction>, u: UserId, a: AccountId, now: int): int {
    SumOver(Where(transactions, AlertExpenseFilter(u, a, AlertWindowStart(now))), Amount)
  }

  /**
    The job's check of one budget: no alert when the owner has no default
    account, otherwise the decision as written applied to that account's
    expenses since the first of the month.
   */
  predicate AlertDue(accounts: map<AccountId, Account>, transactions: map<TransactionId, Transaction>,
                     b: Budget, now: int)
  {
    match DefaultAccountOf(accounts, b.userId)
    case None => false
    case Some(a) =>
      ShouldAlertAsWritten(AlertExpenses(transactions, b.userId, a, now), b.amount, b.lastAlertSent, now)
  }

  /** The check of every budget at `now`, as a test on budgets. */
  function AlertCheck(accounts: map<AccountId, Account>, transactions: map<TransactionId, Transaction>,
                      now: int): Budget -> bool
  {
    b => AlertDue(accounts, transactions, b, now)
  }

  /** The budgets table with every budget that `due` selects stamped with `now`. */
  function Stamp(budgets: map<BudgetId, Budget>, due: Budget -> bool, now: int): (r: map<BudgetId, Budget>)
    ensures r.Keys == budgets.Keys
  {
    map k | k in budgets :: if due(budgets[k]) then budgets[k].(lastAlertSent := Some(now)) else budgets[k]
  }

  /** The budgets table after one run of the job at `now`. */
  function AfterAlerts(accounts: map<AccountId, Account>, transactions: map<TransactionId, Transaction>,
                       budgets: map<BudgetId, Budget>, now: int): (r: map<BudgetId, Budget>)
    ensures r.Keys == budgets.Keys
    ensures forall k | k in r :: r[k] == if AlertDue(accounts, transactions, budgets[k], now) then budgets[k].(lastAlertSent := Some(now)) else budgets[k]
  {
    Stamp(budgets, AlertCheck(accounts, transactions, now), now)
  }

  /**
    The job as written stamps (and emails for) a zero budget as soon as its
    owner has spent anything on the default account this month.
   */
  lemma ZeroBudgetStamped(accounts: map<AccountId, Account>, transactions: map<TransactionId, Transaction>,
                          budgets: map<BudgetId, Budget>, now: int, k: BudgetId)
    requires k in budgets && budgets[k].amount == 0 && budgets[k].lastAlertSent.None?
    requires DefaultAccountOf(accounts, budgets[k].userId).Some?
    requires AlertExpenses(transactions, budgets[k].userId, DefaultAccountOf(accounts, budgets[k].userId).value, now) > 0
    ensures AfterAlerts(accounts, transactions, budgets, now)[k] == budgets[k].(lastAlertSent := Some(now))
    ensures !ShouldAlert(AlertExpenses(transactions, budgets[k].userId, DefaultAccountOf(accounts, budgets[k].userId).value, now),
                         budgets[k].amount, budgets[k].lastAlertSent, now)
  {
  }

  /** Stamping keeps every budget's id and owner, so the table stays well formed. */
  lemma AfterAlertsValid(accounts: map<AccountId, Account>, transactions: map<TransactionId, Transaction>,
                         budgets: map<BudgetId, Budget>, now: int, nextId: nat)
    requires BudgetIds(budgets, nextId) && OneBudgetPerUser(budgets)
    ensures BudgetIds(AfterAlerts(accounts, transactions, budgets, now), nextId)
    ensures OneBudgetPerUser(AfterAlerts(accounts, transactions, budgets, now))
  {
    var r := AfterAlerts(accounts, transactions, budgets, now);
    assert forall k | k in r :: r[k].id == budgets[k].id && r[k].userId == budgets[k].userId;
  }

  /** A second run at the same instant changes nothing: every budget it would alert for was stamped by the first. */
  lemma AlertsIdempotent(accounts: map<AccountId, Account>, transactions: map<TransactionId, Transaction>,
                         budgets: map<BudgetId, Budget>, now: int)
    ensures var once := AfterAlerts(accounts, transactions, budgets, now);
      AfterAlerts(accounts, transactions, once, now) == once
  {
    var once := AfterAlerts(accounts, transactions, budgets, now);
    forall k | k in once ensures !AlertDue(accounts, transactions, once[k], now) || once[k] == budgets[k] {
      if AlertDue(accounts, transactions, budgets[k], now) {
        assert once[k] == budgets[k].(lastAlertSent := Some(now));
        assert !IsNewMonth(now, now);
      }
    }
  }

  /**
    A budget the job alerted for at `now` is not alerted for again by any
    later run in the same calendar month, whatever the accounts and spending then.
   */
  lemma AlertedStaysQuiet(accounts: map<AccountId, Account>, transactions: map<TransactionId, Transaction>,
                          budgets: map<BudgetId, Budget>, now: int, k: BudgetId,
                          laterAccounts: map<AccountId, Account>, laterTransactions: map<TransactionId, Transaction>,
                          later: int)
    requires k in budgets && AlertDue(accounts, transactions, budgets[k], now)
    requires now <= later < StartOfMonth(CivilOf(now).year, CivilOf(now).month + 1)
    ensures !AlertDue(laterAccounts, laterTransactions, AfterAlerts(accounts, transactions, budgets, now)[k], later)
  {
    var b := AfterAlerts(accounts, transactions, budgets, now)[k];
    assert b.lastAlertSent == Some(now);
    match DefaultAccountOf(laterAccounts, b.userId)
    case None =>
    case Some(a) =>
      NoSecondAlertThisMonth(AlertExpenses(laterTransactions, b.userId, a, later), b.amount, now, later);
  }

  /**
    The loop of `checkBudgetAlerts` over the budgets table: every budget that
    `due` selects is stamped with `now` (and its owner emailed).  Returns the
    new table and the budgets alerted for.
   */
  method StampAlerts(budgets: map<BudgetId, Budget>, due: Budget -> bool, now: int)
    returns (stamped: map<BudgetId, Budget>, alerted: set<BudgetId>)
    ensures stamped == Stamp(budgets, due, now)
    ensures forall k :: k in alerted <==> k in budgets && due(budgets[k])
  {
    var rest := budgets.Keys;
    stamped := budgets;
    alerted := {};
    while rest != {}
      invariant rest <= budgets.Keys
      invariant stamped.Keys == budgets.Keys
      invariant forall k | k in rest :: stamped[k] == budgets[k]
      invariant forall k | k in stamped && k !in rest :: stamped[k] == Stamp(budgets, due, now)[k]
      invariant forall k :: k in alerted <==> k in budgets && k !in rest && due(budgets[k])
      decreases rest
    {
      var k :| k in rest;
      rest := rest - {k};
      var b := stamped[k];
      if due(b) {
        stamped := stamped[k := b.(lastAlertSent := Some(now))];
        alerted := alerted + {k};
      }
    }
  }

  /** `checkBudgetAlerts`: one pass of the alert check over the store's budgets. */
  method CheckBudgetAlerts(store: Ledger, now: int) returns (alerted: set<BudgetId>)
    requires store.Valid()
    modifies store
    ensures store.Valid()
    ensures store.users == old(store.users) && store.accounts == old(store.accounts)
    ensures store.transactions == old(store.transactions) && store.nextId == old(store.nextId)
    ensures store.budgets == AfterAlerts(old(store.accounts), old(store.transactions), old(store.budgets), now)
    ensures forall k :: k in alerted <==>
      k in old(store.budgets) && AlertDue(old(store.accounts), old(store.transactions), old(store.budgets)[k], now)
  {
    AfterAlertsValid(store.accounts, store.transactions, store.budgets, now, store.nextId);
    var stamped;
    stamped, alerted := StampAlerts(store.budgets, AlertCheck(store.accounts, store.transactions, now), now);
    store.budgets := stamped;
  }
}
