/**
  The ledger store: the users, accounts, transactions and budgets tables the
  server actions and background jobs read and write, each a map from row id to
  row.  Amounts and balances are whole cents; timestamps are seconds (see
  module Calendar).  Ids are drawn from one counter, so a new row never reuses
  an id.
 */
module Store {
  import opened Results
  import opened Sums

  type UserId = nat
  type AccountId = nat
  type TransactionId = nat
  type BudgetId = nat

  datatype TransactionType = Expense | Income
  datatype AccountType = Current | Savings
  datatype TransactionStatus = Pending | Completed | Failed

  datatype Account = Account(
    id: AccountId,
    userId: UserId,
    name: string,
    kind: AccountType,
    balance: int,
    isDefault: bool,
    createdAt: int)

  datatype Transaction = Transaction(
    id: TransactionId,
    kind: TransactionType,
    amount: int,
    description: Option<string>,
    date: int,
    category: string,
    isRecurring: bool,
    recurringInterval: Option<string>,
    nextRecurringDate: Option<int>,
    lastProcessed: Option<int>,
    status: TransactionStatus,
    userId: UserId,
    accountId: AccountId,
    createdAt: int)

  datatype Budget = Budget(
    id: BudgetId,
    userId: UserId,
    amount: int,
    lastAlertSent: Option<int>)

  /** Every account row's id is its key and was drawn from the counter. */
  ghost predicate AccountIds(accounts: map<AccountId, Account>, nextId: nat) {
    forall k | k in accounts :: accounts[k].id == k && k < nextId
  }

  ghost predicate TransactionIds(transactions: map<TransactionId, Transaction>, nextId: nat) {
    forall k | k in transactions :: transactions[k].id == k && k < nextId
  }

  ghost predicate BudgetIds(budgets: map<BudgetId, Budget>, nextId: nat) {
    forall k | k in budgets :: budgets[k].id == k && k < nextId
  }

  /** The budgets table's unique key on `userId`: no user has two budget rows. */
  ghost predicate OneBudgetPerUser(budgets: map<BudgetId, Budget>) {
    forall a, b | a in budgets && b in budgets && budgets[a].userId == budgets[b].userId :: a == b
  }

  /** The accounts of user `u` that carry the default flag. */
  function DefaultAccounts(accounts: map<AccountId, Account>, u: UserId): (r: set<AccountId>)
    ensures forall k | k in r :: k in accounts && accounts[k].userId == u && accounts[k].isDefault
    ensures forall k | k in accounts && accounts[k].userId == u && accounts[k].isDefault :: k in r
  {
    set k | k in accounts && accounts[k].userId == u && accounts[k].isDefault
  }

  /** At most one account per user has the default flag set. */
  ghost predicate OneDefaultPerUser(accounts: map<AccountId, Account>) {
    forall a, b | a in accounts && b in accounts
      && accounts[a].isDefault && accounts[b].isDefault
      && accounts[a].userId == accounts[b].userId :: a == b
  }

  /** +amount for income, -amount for an expense: the row's effect on its account's balance. */
  function SignedAmount(t: Transaction): (r: int)
    ensures t.kind == Expense ==> r == -t.amount
    ensures t.kind == Income ==> r == t.amount
  {
    if t.kind == Expense then -t.amount else t.amount
  }

  /** The row's amount, the field `_sum: { amount: true }` adds up. */
  function Amount(t: Transaction): int {
    t.amount
  }

  /** An account row's key. */
  function AccountKey(a: Account): AccountId {
    a.id
  }

  /** A transaction row's key. */
  function TransactionKey(t: Transaction): TransactionId {
    t.id
  }

  /** The error an update by id raises when no row matches (the last sentence of the database client's message). */
  const RecordNotFound: string := "Record to update not found."

  /**
    The signed-in user's row: no session id (or an empty one) is "Unauthorized",
    an id without a user row is `notFound` (each action words it its own way).
   */
  function ResolveUser(users: map<string, UserId>, session: Option<string>, notFound: string): (r: Result<UserId>)
    ensures session == None || session == Some("") ==> r == Err("Unauthorized")
    ensures session.Some? && session.value != "" && session.value !in users ==> r == Err(notFound)
    ensures session.Some? && session.value in users && session.value != "" ==> r == Ok(users[session.value])
  {
    match session
    case None => Err("Unauthorized")
    case Some(clerkId) =>
      if clerkId == "" then Err("Unauthorized")
      else if clerkId in users then Ok(users[clerkId])
      else Err(notFound)
  }

  class Ledger {
    /** The users table, looked up by the authentication provider's id. */
    var users: map<string, UserId>
    var accounts: map<AccountId, Account>
    var transactions: map<TransactionId, Transaction>
    var budgets: map<BudgetId, Budget>
    /** The next id a created row receives. */
    var nextId: nat

    ghost predicate Valid()
      reads this
    {
      && AccountIds(accounts, nextId)
      && TransactionIds(transactions, nextId)
      && BudgetIds(budgets, nextId)
      && OneBudgetPerUser(budgets)
      && OneDefaultPerUser(accounts)
    }

    constructor ()
      ensures Valid()
      ensures users == map[] && accounts == map[] && transactions == map[] && budgets == map[]
    {
      users := map[];
      accounts := map[];
      transactions := map[];
      budgets := map[];
      nextId := 0;
    }
  }
}
