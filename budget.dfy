/**
  The budget actions: reading the user's budget with this month's expenses on
  one account, and setting the budget amount (one budget row per user, created
  on first use).
 */
module Budgets {
  import opened Results
  import opened Calendar
  import opened Sums
  import opened Store
  import opened Listing

  /** The budgets of user `u`. */
  function BudgetIdsOf(budgets: map<BudgetId, Budget>, u: UserId): (r: set<BudgetId>)
    ensures forall k | k in r :: k in budgets && budgets[k].userId == u
    ensures forall k | k in budgets && budgets[k].userId == u :: k in r
  {
    set k | k in budgets && budgets[k].userId == u
  }

  /** `budget.findFirst({ where: { userId } })`: the user's budget row, if any (the lowest id if there were several). */
  function BudgetOf(budgets: map<BudgetId, Budget>, u: UserId): (r: Option<Budget>)
    ensures r.None? <==> forall k | k in budgets :: budgets[k].userId != u
    ensures r.Some? ==> r.value.userId == u && exists k :: k in budgets && budgets[k] == r.value
  {
    var own := BudgetIdsOf(budgets, u);
    if own == {} then None else Some(budgets[LeastOf(own)])
  }

  /** With the unique key on `userId`, the row found is THE user's budget. */
  lemma BudgetOfUnique(budgets: map<BudgetId, Budget>, u: UserId, k: BudgetId)
    requires OneBudgetPerUser(budgets)
    requires k in budgets && budgets[k].userId == u
    ensures BudgetOf(budgets, u) == Some(budgets[k])
  {
    assert BudgetIdsOf(budgets, u) == {k};
  }

  /**
    The rows `getCurrentBudget` sums: `u`'s expenses on the account dated from
    the first of now's month up to the LAST day of the month at midnight, as
    the query's `gte`/`lte` bounds are written.
   */
  function MonthExpenseOn(u: UserId, account: AccountId, now: int): Transaction -> bool {
    var c := CivilOf(now);
    (t: Transaction) =>
      t.userId == u && t.kind == Expense && t.accountId == account && InMonthWindowAsWritten(t.date, c.year, c.month)
  }

  /**
    A row is summed exactly when it is the user's expense on the account in the
    same calendar month as `now`, unless it is dated on that month's last day
    after midnight.
   */
  lemma MonthExpenseOnWindow(u: UserId, account: AccountId, now: int, t: Transaction)
    ensures MonthExpenseOn(u, account, now)(t) <==>
      && t.userId == u && t.kind == Expense && t.accountId == account
      && CivilOf(t.date).year == CivilOf(now).year && CivilOf(t.date).month == CivilOf(now).month
      && !(CivilOf(t.date).day == DaysInMonth(CivilOf(now).year, CivilOf(now).month) && TimeInDay(t.date) > 0)
  {
    MonthWindowAsWrittenCivil(t.date, CivilOf(now).year, CivilOf(now).month);
  }

  datatype BudgetView = BudgetView(budget: Option<Budget>, currentExpenses: int)

  /**
    `getCurrentBudget(accountId)`: the user's budget (null without one) and the
    sum of the expense amounts on the account within this month's window as
    the query writes it (0 without any).
    Errors are rethrown.
   */
  method GetCurrentBudget(store: Ledger, session: Option<string>, account: AccountId, now: int)
    returns (r: Result<BudgetView>)
    requires store.Valid()
    ensures match ResolveUser(store.users, session, "User not Found")
      case Err(msg) => r == Err(msg)
      case Ok(u) =>
        && r.Ok?
        && r.value.budget == BudgetOf(store.budgets, u)
        && r.value.currentExpenses == MapSum(Where(store.transactions, MonthExpenseOn(u, account, now)), Amount)
  {
    var user := ResolveUser(store.users, session, "User not Found");
    if user.Err? {
      return Err(user.msg);
    }
    var u := user.value;
    var budget := BudgetOf(store.budgets, u);
    var expenses := SumOver(Where(store.transactions, MonthExpenseOn(u, account, now)), Amount);
    r := Ok(BudgetView(budget, expenses));
  }

  /** A month with no matching rows reports 0 expenses. */
  lemma NoExpensesIsZero(transactions: map<TransactionId, Transaction>, u: UserId, account: AccountId, now: int)
    requires forall k | k in transactions :: !MonthExpenseOn(u, account, now)(transactions[k])
    ensures MapSum(Where(transactions, MonthExpenseOn(u, account, now)), Amount) == 0
  {
    assert Where(transactions, MonthExpenseOn(u, account, now)) == map[];
    MapSumEmpty(Where(transactions, MonthExpenseOn(u, account, now)), Amount);
  }

  /**
    `budget.upsert({ where: { userId }, update: { amount }, create: { userId, amount } })`:
    the user's row gets the new amount (id and last alert kept), or a new row
    is created under `id`.
   */
  function Upsert(budgets: map<BudgetId, Budget>, u: UserId, amount: int, id: BudgetId): (Budget, map<BudgetId, Budget>) {
    match BudgetOf(budgets, u)
    case Some(b) => var updated := b.(amount := amount); (updated, budgets[b.id := updated])
    case None => var created := Budget(id, u, amount, None); (created, budgets[id := created])
  }

  /**
    After the upsert the user has exactly one budget, the returned row, with
    the new amount; an existing row keeps its id and its last alert.
   */
  lemma UpsertSetsBudget(budgets: map<BudgetId, Budget>, u: UserId, amount: int, id: BudgetId, nextId: nat)
    requires BudgetIds(budgets, nextId) && OneBudgetPerUser(budgets) && id == nextId
    ensures var (b, after) := Upsert(budgets, u, amount, id);
      && b.userId == u && b.amount == amount
      && BudgetIdsOf(after, u) == {b.id} && after[b.id] == b
      && (BudgetOf(budgets, u).Some? ==>
            b.id == BudgetOf(budgets, u).value.id && b.lastAlertSent == BudgetOf(budgets, u).value.lastAlertSent)
      && (BudgetOf(budgets, u).None? ==> b.id == id && b.lastAlertSent.None?)
  {
    var (b, after) := Upsert(budgets, u, amount, id);
    match BudgetOf(budgets, u)
    case Some(prior) =>
      var k :| k in budgets && budgets[k] == prior;
      BudgetOfUnique(budgets, u, k);
      assert BudgetIdsOf(after, u) == {b.id};
    case None =>
      assert BudgetIdsOf(after, u) == {b.id};
  }

  /** The upsert keeps one budget per user and leaves every other user's budget alone. */
  lemma UpsertKeepsOthers(budgets: map<BudgetId, Budget>, u: UserId, amount: int, id: BudgetId, nextId: nat)
    requires BudgetIds(budgets, nextId) && OneBudgetPerUser(budgets) && id == nextId
    ensures var after := Upsert(budgets, u, amount, id).1;
      && OneBudgetPerUser(after)
      && BudgetIds(after, nextId + 1)
      && (forall k | k in budgets && budgets[k].userId != u :: k in after && after[k] == budgets[k])
      && (forall k | k in after && after[k].userId != u :: k in budgets)
  {
    UpsertSetsBudget(budgets, u, amount, id, nextId);
    var (b, after) := Upsert(budgets, u, amount, id);
    forall x, y | x in after && y in after && after[x].userId == after[y].userId
      ensures x == y
    {
      if after[x].userId == u {
        assert x in BudgetIdsOf(after, u) && y in BudgetIdsOf(after, u);
      } else {
        assert x != b.id && y != b.id;
      }
    }
  }

  /** `updateBudget(amount)`: errors come back as `{ success: false, error }`. */
  method UpdateBudget(store: Ledger, session: Option<string>, amount: int) returns (r: Reply<Budget>)
    requires store.Valid()
    modifies store
    ensures store.Valid()
    ensures store.users == old(store.users) && store.accounts == old(store.accounts)
    ensures store.transactions == old(store.transactions)
    ensures match ResolveUser(old(store.users), session, "User Not found")
      case Err(msg) =>
        r == Failure(msg) && store.budgets == old(store.budgets) && store.nextId == old(store.nextId)
      case Ok(u) =>
        var (b, after) := Upsert(old(store.budgets), u, amount, old(store.nextId));
        && r == Success(b) && store.budgets == after
        && store.nextId == old(store.nextId) + (if BudgetOf(old(store.budgets), u).None? then 1 else 0)
  {
    var user := ResolveUser(store.users, session, "User Not found");
    if user.Err? {
      return Failure(user.msg);
    }
    var u := user.value;
    UpsertKeepsOthers(store.budgets, u, amount, store.nextId, store.nextId);
    var existing := BudgetOf(store.budgets, u);
    if existing.Some? {
      var updated := existing.value.(amount := amount);
      store.budgets := store.budgets[updated.id := updated];
      r := Success(updated);
    } else {
      var created := Budget(store.nextId, u, amount, None);
      store.budgets := store.budgets[created.id := created];
      store.nextId := store.nextId + 1;
      r := Success(created);
    }
  }
}
