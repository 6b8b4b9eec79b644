/**
  The monthly-report statistics (`getMonthlyStats`): a user's transactions
  dated in one month's window (which, as the query is written, ends at
  midnight of the month's last day), fetched in no particular order and reduced to
  the month's expense and income totals, the expenses per category and the
  number of rows.
 */
module Reports {
  import opened Calendar
  import opened Sums
  import opened Store
  import opened Listing

  datatype Stats = Stats(totalExpenses: int, totalIncome: int, byCategory: map<string, int>, transactionsCount: nat)

  /** `t.category || "Uncategorized"`: an empty category is reported as "Uncategorized". */
  function CategoryOf(t: Transaction): (c: string)
    ensures c != ""
    ensures t.category != "" ==> c == t.category
    ensures t.category == "" ==> c == "Uncategorized"
  {
    if t.category == "" then "Uncategorized" else t.category
  }

  /** One step of the reduce: the row's amount goes to the expenses and its category, or else to the income. */
  function Tally(s: Stats, t: Transaction): Stats {
    if t.kind == Expense then
      s.(totalExpenses := s.totalExpenses + t.amount, byCategory := AddTo(s.byCategory, CategoryOf(t), t.amount))
    else
      s.(totalIncome := s.totalIncome + t.amount)
  }

  /** `rows.reduce(step, init)`: the rows taken left to right. */
  function Reduce(rows: seq<Transaction>, init: Stats): Stats
    decreases |rows|
  {
    if |rows| == 0 then init else Tally(Reduce(rows[..|rows| - 1], init), rows[|rows| - 1])
  }

  /** The reduce from zero totals, no categories and the number of fetched rows. */
  function MonthlyStats(rows: seq<Transaction>): Stats {
    Reduce(rows, Stats(0, 0, map[], |rows|))
  }

  /** A row's contribution to the expense total. */
  function ExpenseAmount(t: Transaction): int {
    if t.kind == Expense then t.amount else 0
  }

  /** A row's contribution to the income total: every row that is not an expense. */
  function IncomeAmount(t: Transaction): int {
    if t.kind == Expense then 0 else t.amount
  }

  /** A row's contribution to the figure of category `c`. */
  function CategoryAmount(c: string): Transaction -> int {
    (t: Transaction) => if t.kind == Expense && CategoryOf(t) == c then t.amount else 0
  }

  /** The categories of the expense rows of a list. */
  function RowCategories(rows: seq<Transaction>): set<string> {
    set i | 0 <= i < |rows| && rows[i].kind == Expense :: CategoryOf(rows[i])
  }

  /** The reduce adds the expense rows to the expense total and leaves the count alone. */
  lemma {:induction false} ReduceExpenses(rows: seq<Transaction>, init: Stats)
    ensures Reduce(rows, init).totalExpenses == init.totalExpenses + SeqSum(rows, ExpenseAmount)
    ensures Reduce(rows, init).transactionsCount == init.transactionsCount
    decreases |rows|
  {
    if |rows| != 0 {
      ReduceExpenses(rows[..|rows| - 1], init);
    }
  }

  /** The reduce adds every other row to the income total. */
  lemma {:induction false} ReduceIncome(rows: seq<Transaction>, init: Stats)
    ensures Reduce(rows, init).totalIncome == init.totalIncome + SeqSum(rows, IncomeAmount)
    decreases |rows|
  {
    if |rows| != 0 {
      ReduceIncome(rows[..|rows| - 1], init);
    }
  }

  /** The categories after the reduce are those it started with and those of the expense rows. */
  lemma {:induction false} ReduceCategoryKeys(rows: seq<Transaction>, init: Stats)
    ensures Reduce(rows, init).byCategory.Keys == init.byCategory.Keys + RowCategories(rows)
    decreases |rows|
  {
    if |rows| != 0 {
      var front := rows[..|rows| - 1];
      ReduceCategoryKeys(front, init);
      var last := rows[|rows| - 1];
      assert RowCategories(rows) == RowCategories(front) + (if last.kind == Expense then {CategoryOf(last)} else {}) by {
        forall c | c in RowCategories(rows)
          ensures c in RowCategories(front) || (last.kind == Expense && c == CategoryOf(last))
        {
          var i :| 0 <= i < |rows| && rows[i].kind == Expense && CategoryOf(rows[i]) == c;
          if i < |front| {
            assert front[i] == rows[i];
          }
        }
        forall c | c in RowCategories(front) ensures c in RowCategories(rows) {
          var i :| 0 <= i < |front| && front[i].kind == Expense && CategoryOf(front[i]) == c;
          assert rows[i] == front[i];
        }
      }
    }
  }

  /** Each category's figure grows by the sum of the expense rows filed under it. */
  lemma {:induction false} ReduceCategoryFigure(rows: seq<Transaction>, init: Stats, c: string)
    ensures var r := Reduce(rows, init);
      c in r.byCategory ==>
        r.byCategory[c] == (if c in init.byCategory then init.byCategory[c] else 0) + SeqSum(rows, CategoryAmount(c))
    ensures c !in init.byCategory && SeqSum(rows, CategoryAmount(c)) != 0 ==> c in Reduce(rows, init).byCategory
    decreases |rows|
  {
    if |rows| != 0 {
      ReduceCategoryFigure(rows[..|rows| - 1], init, c);
      ReduceCategoryKeys(rows[..|rows| - 1], init);
    }
  }

  /** The per-category figures grow by exactly what the expense total grows by. */
  lemma {:induction false} ReduceCategoriesAddUp(rows: seq<Transaction>, init: Stats)
    ensures MapSum(Reduce(rows, init).byCategory, Value)
            == MapSum(init.byCategory, Value) + Reduce(rows, init).totalExpenses - init.totalExpenses
    decreases |rows|
  {
    if |rows| != 0 {
      var front := rows[..|rows| - 1];
      ReduceCategoriesAddUp(front, init);
      var s := Reduce(front, init);
      var t := rows[|rows| - 1];
      if t.kind == Expense {
        AddToSum(s.byCategory, CategoryOf(t), t.amount);
      }
    }
  }

  /**
    The query's `where`: the user's rows dated from the first of month's month
    up to the LAST day of that month at midnight, as the `gte`/`lte` bounds are written.
   */
  function InMonthOf(u: UserId, month: int): Transaction -> bool {
    var c := CivilOf(month);
    (t: Transaction) => t.userId == u && InMonthWindowAsWritten(t.date, c.year, c.month)
  }

  /** The rows of the user's month. */
  function MonthRows(transactions: map<TransactionId, Transaction>, u: UserId, month: int): map<TransactionId, Transaction> {
    Where(transactions, InMonthOf(u, month))
  }

  /**
    A row is fetched exactly when it is the user's and dated in month's calendar
    month, unless it is dated on that month's last day after midnight.
   */
  lemma MonthRowsWindow(transactions: map<TransactionId, Transaction>, u: UserId, month: int, k: TransactionId)
    ensures k in MonthRows(transactions, u, month) <==>
      && k in transactions && transactions[k].userId == u
      && CivilOf(transactions[k].date).year == CivilOf(month).year
      && CivilOf(transactions[k].date).month == CivilOf(month).month
      && !(CivilOf(transactions[k].date).day == DaysInMonth(CivilOf(month).year, CivilOf(month).month)
           && TimeInDay(transactions[k].date) > 0)
  {
    if k in transactions {
      MonthWindowAsWrittenCivil(transactions[k].date, CivilOf(month).year, CivilOf(month).month);
    }
  }

  /** The categories of the expense rows of a table. */
  function Categories(m: map<TransactionId, Transaction>): set<string> {
    set k | k in m && m[k].kind == Expense :: CategoryOf(m[k])
  }

  /** A listing carries exactly the table's expense categories. */
  lemma ListingCategories(rows: seq<Transaction>, m: map<TransactionId, Transaction>)
    requires ListingOf(rows, m, TransactionKey)
    ensures RowCategories(rows) == Categories(m)
  {
    forall c | c in Categories(m) ensures c in RowCategories(rows) {
      var k :| k in m && m[k].kind == Expense && CategoryOf(m[k]) == c;
      var i :| 0 <= i < |rows| && rows[i].id == k;
      assert rows[i] == m[k];
    }
    forall c | c in RowCategories(rows) ensures c in Categories(m) {
      var i :| 0 <= i < |rows| && rows[i].kind == Expense && CategoryOf(rows[i]) == c;
      assert rows[i].id in m;
    }
  }

  /** The totals and count of a listing are those of the table it lists, whatever the order. */
  lemma TotalsOfListing(rows: seq<Transaction>, m: map<TransactionId, Transaction>)
    requires ListingOf(rows, m, TransactionKey)
    ensures MonthlyStats(rows).totalExpenses == MapSum(m, ExpenseAmount)
    ensures MonthlyStats(rows).totalIncome == MapSum(m, IncomeAmount)
    ensures MonthlyStats(rows).transactionsCount == |m|
  {
    var init := Stats(0, 0, map[], |rows|);
    ListingSum(rows, m, TransactionKey, ExpenseAmount);
    ListingSum(rows, m, TransactionKey, IncomeAmount);
    ReduceExpenses(rows, init);
    ReduceIncome(rows, init);
  }

  /** The categories of a listing are the table's expense categories. */
  lemma CategoryKeysOfListing(rows: seq<Transaction>, m: map<TransactionId, Transaction>)
    requires ListingOf(rows, m, TransactionKey)
    ensures MonthlyStats(rows).byCategory.Keys == Categories(m)
  {
    ReduceCategoryKeys(rows, Stats(0, 0, map[], |rows|));
    ListingCategories(rows, m);
  }

  /** A category's figure in the statistics of a listing is the sum of the table's rows filed under it. */
  lemma CategoryFigureOfListing(rows: seq<Transaction>, m: map<TransactionId, Transaction>, c: string)
    requires ListingOf(rows, m, TransactionKey)
    requires c in MonthlyStats(rows).byCategory
    ensures MonthlyStats(rows).byCategory[c] == MapSum(m, CategoryAmount(c))
  {
    ReduceCategoryFigure(rows, Stats(0, 0, map[], |rows|), c);
    ListingSum(rows, m, TransactionKey, CategoryAmount(c));
  }

  /** The category figures of the statistics add up to the expense total. */
  lemma CategoriesAddUp(rows: seq<Transaction>)
    ensures MapSum(MonthlyStats(rows).byCategory, Value) == MonthlyStats(rows).totalExpenses
  {
    var init := Stats(0, 0, map[], |rows|);
    ReduceCategoriesAddUp(rows, init);
    MapSumEmpty(init.byCategory, Value);
  }

  /**
    `getMonthlyStats(userId, month)`: fetch the user's rows of month's calendar
    month (in whatever order the store returns them) and reduce them.  The
    result does not depend on that order: the totals are the sums of the
    month's expense and other rows, the categories are those of the month's
    expense rows, each with the sum of its rows, and they add up to the
    expense total.
   */
  method GetMonthlyStats(transactions: map<TransactionId, Transaction>, u: UserId, month: int) returns (stats: Stats)
    requires forall k | k in transactions :: transactions[k].id == k
    ensures stats.totalExpenses == MapSum(MonthRows(transactions, u, month), ExpenseAmount)
    ensures stats.totalIncome == MapSum(MonthRows(transactions, u, month), IncomeAmount)
    ensures stats.transactionsCount == |MonthRows(transactions, u, month)|
    ensures stats.byCategory.Keys == Categories(MonthRows(transactions, u, month))
    ensures forall c | c in stats.byCategory ::
      stats.byCategory[c] == MapSum(MonthRows(transactions, u, month), CategoryAmount(c))
    ensures MapSum(stats.byCategory, Value) == stats.totalExpenses
  {
    var ids := SortedIdsDesc(transactions, InMonthOf(u, month), (t: Transaction) => 0);
    var rows := seq(|ids|, i requires 0 <= i < |ids| => transactions[ids[i]]);
    SelectedListing(transactions, InMonthOf(u, month), TransactionKey, ids, rows);
    TotalsOfListing(rows, MonthRows(transactions, u, month));
    CategoryKeysOfListing(rows, MonthRows(transactions, u, month));
    CategoriesAddUp(rows);
    stats := MonthlyStats(rows);
    forall c | c in stats.byCategory
      ensures stats.byCategory[c] == MapSum(MonthRows(transactions, u, month), CategoryAmount(c))
    {
      CategoryFigureOfListing(rows, MonthRows(transactions, u, month), c);
    }
  }
}
