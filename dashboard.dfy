/**
  The dashboard actions: creating an account (the first one, or one asked to
  be, becomes the user's only default) and listing the user's own accounts and
  transactions, newest first.
 */
module Dashboard {
  import opened Results
  import opened Sums
  import opened Store
  import opened Listing
  import opened Numbers
  import opened Accounts

  const InvalidBalance: string := "Invalid balance amount"

  /** The database's refusal of an infinite balance (its wording is the client library's). */
  const InfiniteBalance: string := "Invalid value for argument `balance`"

  /** The rows of the accounts table that belong to `u`. */
  function OwnedAccount(u: UserId): Account -> bool {
    (a: Account) => a.userId == u
  }

  /** The first account is always the default; any other only when asked for. */
  function ShouldBeDefault(accounts: map<AccountId, Account>, u: UserId, requested: bool): (r: bool)
    ensures r <==> requested || forall k | k in accounts :: accounts[k].userId != u
  {
    var own := Where(accounts, OwnedAccount(u));
    if |own| == 0 then true else requested
  }

  /**
    The accounts table after the account is created: when it is the default,
    the user's other defaults are cleared first.
   */
  function WithAccount(accounts: map<AccountId, Account>, account: Account): (r: map<AccountId, Account>)
    ensures r.Keys == accounts.Keys + {account.id} && r[account.id] == account
    ensures account.isDefault ==> DefaultAccounts(r, account.userId) == {account.id}
    ensures !account.isDefault ==> forall k | k in accounts && k != account.id :: r[k] == accounts[k]
    ensures forall k | k in accounts && k != account.id && accounts[k].userId != account.userId :: r[k] == accounts[k]
  {
    var before := if account.isDefault then ClearDefaults(accounts, account.userId) else accounts;
    before[account.id := account]
  }

  /** Creating an account keeps every user at one default at most. */
  lemma WithAccountKeepsOneDefault(accounts: map<AccountId, Account>, account: Account)
    requires OneDefaultPerUser(accounts)
    ensures OneDefaultPerUser(WithAccount(accounts, account))
  {
    var after := WithAccount(accounts, account);
    forall a, b | a in after && b in after && after[a].isDefault && after[b].isDefault
      && after[a].userId == after[b].userId
      ensures a == b
    {
      if account.isDefault && after[a].userId == account.userId {
        assert a in DefaultAccounts(after, account.userId) && b in DefaultAccounts(after, account.userId);
      } else {
        assert a != account.id && b != account.id;
        assert after[a] == accounts[a] && after[b] == accounts[b];
      }
    }
  }

  /**
    What creating an account does with the parsed balance: NaN is refused
    before anything is written; otherwise the user's defaults are cleared when
    the new account will be the default, and then a row with the caller's id,
    the balance in cents and that flag is created under `id`, which the
    database refuses for an infinite balance.
   */
  function CreateOutcome(
    accounts: map<AccountId, Account>, u: UserId, id: AccountId, name: string, kind: AccountType,
    parsed: Parsed, isDefault: bool, now: int): (Result<Account>, map<AccountId, Account>)
  {
    var makeDefault := ShouldBeDefault(accounts, u, isDefault);
    match parsed
    case NotANumber => (Err(InvalidBalance), accounts)
    case Infinite(_) => (Err(InfiniteBalance), if makeDefault then ClearDefaults(accounts, u) else accounts)
    case Finite(negative, digits, scale) =>
      var account := Account(id, u, name, kind, Cents(negative, digits, scale), makeDefault, now);
      (Ok(account), WithAccount(accounts, account))
  }

  /**
    A created account is the caller's, under the new id, with the parsed
    balance; it is the default exactly when it is the user's first account or
    was asked to be, and then it is the user's only default.
   */
  lemma CreatedAccount(
    accounts: map<AccountId, Account>, u: UserId, id: AccountId, name: string, kind: AccountType,
    parsed: Parsed, isDefault: bool, now: int)
    requires id !in accounts
    ensures var (r, after) := CreateOutcome(accounts, u, id, name, kind, parsed, isDefault, now);
      && (r.Ok? <==> parsed.Finite?)
      && (r.Ok? ==>
           && r.value.id == id && r.value.userId == u && r.value.name == name && r.value.kind == kind
           && r.value.balance == Cents(parsed.negative, parsed.digits, parsed.scale)
           && (r.value.isDefault <==> isDefault || forall k | k in accounts :: accounts[k].userId != u)
           && after.Keys == accounts.Keys + {id} && after[id] == r.value
           && (r.value.isDefault ==> DefaultAccounts(after, u) == {id}))
  {
  }

  /** Creating an account, or failing to, keeps every user at one default at most. */
  lemma CreateKeepsOneDefault(
    accounts: map<AccountId, Account>, u: UserId, id: AccountId, name: string, kind: AccountType,
    parsed: Parsed, isDefault: bool, now: int)
    requires OneDefaultPerUser(accounts)
    ensures OneDefaultPerUser(CreateOutcome(accounts, u, id, name, kind, parsed, isDefault, now).1)
  {
    ClearDefaultsKeepsOneDefault(accounts, u);
    if parsed.Finite? {
      var account := Account(id, u, name, kind, Cents(parsed.negative, parsed.digits, parsed.scale),
        ShouldBeDefault(accounts, u, isDefault), now);
      WithAccountKeepsOneDefault(accounts, account);
    }
  }

  /** An account that is not the default leaves every existing account as it was. */
  lemma CreateNonDefaultTouchesNothing(
    accounts: map<AccountId, Account>, u: UserId, id: AccountId, name: string, kind: AccountType,
    parsed: Parsed, isDefault: bool, now: int)
    requires !ShouldBeDefault(accounts, u, isDefault)
    ensures var after := CreateOutcome(accounts, u, id, name, kind, parsed, isDefault, now).1;
      forall k | k in accounts && k != id :: k in after && after[k] == accounts[k]
  {
  }

  /**
    `createAccount(data)`: the balance text goes through `parseFloat`, the new
    row takes the next id, and every error is rethrown with its message.
   */
  method CreateAccount(
    store: Ledger, session: Option<string>, name: string, kind: AccountType,
    balance: string, isDefault: bool, now: int)
    returns (r: Result<Account>)
    requires store.Valid()
    modifies store
    ensures store.Valid()
    ensures store.users == old(store.users) && store.transactions == old(store.transactions)
    ensures store.budgets == old(store.budgets)
    ensures match ResolveUser(old(store.users), session, "User not Found")
      case Err(msg) =>
        r == Err(msg) && store.accounts == old(store.accounts) && store.nextId == old(store.nextId)
      case Ok(u) =>
        var outcome :=
          CreateOutcome(old(store.accounts), u, old(store.nextId), name, kind, ParseFloat(balance), isDefault, now);
        && r == outcome.0 && store.accounts == outcome.1
        && store.nextId == old(store.nextId) + (if r.Ok? then 1 else 0)
  {
    var user := ResolveUser(store.users, session, "User not Found");
    if user.Err? {
      return Err(user.msg);
    }
    var parsed := ParseFloat(balance);
    r := CreateParsed(store, user.value, name, kind, parsed, isDefault, now);
  }

  /** The writes of `createAccount` once the user is known and the balance parsed. */
  method CreateParsed(
    store: Ledger, u: UserId, name: string, kind: AccountType, parsed: Parsed, isDefault: bool, now: int)
    returns (r: Result<Account>)
    requires store.Valid()
    modifies store
    ensures store.Valid()
    ensures store.users == old(store.users) && store.transactions == old(store.transactions)
    ensures store.budgets == old(store.budgets)
    ensures var outcome := CreateOutcome(old(store.accounts), u, old(store.nextId), name, kind, parsed, isDefault, now);
      && r == outcome.0 && store.accounts == outcome.1
      && store.nextId == old(store.nextId) + (if r.Ok? then 1 else 0)
  {
    if parsed.NotANumber? {
      return Err(InvalidBalance);
    }
    var makeDefault := ShouldBeDefault(store.accounts, u, isDefault);
    ghost var before := store.accounts;
    if makeDefault {
      ClearUserDefaults(store, u);
    }
    if parsed.Infinite? {
      return Err(InfiniteBalance);
    }
    var account := Account(store.nextId, u, name, kind, Cents(parsed.negative, parsed.digits, parsed.scale), makeDefault, now);
    InsertAccount(store, account);
    assert store.accounts == WithAccount(before, account);
    r := Ok(account);
  }

  /** `updateMany` clearing the user's default flags. */
  method ClearUserDefaults(store: Ledger, u: UserId)
    requires store.Valid()
    modifies store
    ensures store.Valid()
    ensures store.accounts == ClearDefaults(old(store.accounts), u)
    ensures store.users == old(store.users) && store.transactions == old(store.transactions)
    ensures store.budgets == old(store.budgets) && store.nextId == old(store.nextId)
  {
    store.accounts := ClearDefaults(store.accounts, u);
  }

  /**
    `account.create`: the row goes in under the next id.  A default row is
    created only once the user's other defaults are cleared.
   */
  method InsertAccount(store: Ledger, account: Account)
    requires store.Valid() && account.id == store.nextId
    requires account.isDefault ==> DefaultAccounts(store.accounts, account.userId) == {}
    modifies store
    ensures store.Valid()
    ensures store.accounts == old(store.accounts)[account.id := account]
    ensures store.nextId == old(store.nextId) + 1
    ensures store.users == old(store.users) && store.transactions == old(store.transactions)
    ensures store.budgets == old(store.budgets)
  {
    NewRowKeepsOneDefault(store.accounts, account);
    store.accounts := store.accounts[account.id := account];
    store.nextId := store.nextId + 1;
  }

  /** A new row keeps one default per user when it is not a default or its user has none yet. */
  lemma NewRowKeepsOneDefault(accounts: map<AccountId, Account>, account: Account)
    requires OneDefaultPerUser(accounts) && account.id !in accounts
    requires account.isDefault ==> DefaultAccounts(accounts, account.userId) == {}
    ensures OneDefaultPerUser(accounts[account.id := account])
  {
  }

  /** An account listed with the number of its transactions (`_count: { transactions }`). */
  datatype AccountSummary = AccountSummary(account: Account, transactionCount: nat)

  function SummarizedAccounts(views: seq<AccountSummary>): (r: seq<Account>)
    ensures |r| == |views| && forall i | 0 <= i < |views| :: r[i] == views[i].account
  {
    seq(|views|, i requires 0 <= i < |views| => views[i].account)
  }

  /**
    `getUserAccount()`: the caller's accounts, newest first, each with its
    number of transactions.  Errors are thrown.
   */
  method GetUserAccount(store: Ledger, session: Option<string>) returns (r: Result<seq<AccountSummary>>)
    requires store.Valid()
    ensures match ResolveUser(store.users, session, "User not Found")
      case Err(msg) => r == Err(msg)
      case Ok(u) =>
        && r.Ok?
        && ListingOf(SummarizedAccounts(r.value), Where(store.accounts, OwnedAccount(u)), AccountKey)
        && (forall i, j | 0 <= i < j < |r.value| :: r.value[i].account.createdAt >= r.value[j].account.createdAt)
        && (forall i | 0 <= i < |r.value| ::
             r.value[i].transactionCount == |Where(store.transactions, OnAccount(r.value[i].account.id))|)
  {
    var user := ResolveUser(store.users, session, "User not Found");
    if user.Err? {
      return Err(user.msg);
    }
    var accounts, transactions := store.accounts, store.transactions;
    var ids := SortedIdsDesc(accounts, OwnedAccount(user.value), (a: Account) => a.createdAt);
    var views := seq(|ids|, i requires 0 <= i < |ids| =>
      AccountSummary(accounts[ids[i]], |Where(transactions, OnAccount(ids[i]))|));
    SelectedListing(accounts, OwnedAccount(user.value), AccountKey, ids, SummarizedAccounts(views));
    r := Ok(views);
  }

  /** The rows of the transactions table that belong to `u`. */
  function OwnedTransaction(u: UserId): Transaction -> bool {
    (t: Transaction) => t.userId == u
  }

  /** `getDashboardData()`: the caller's transactions, newest first.  Errors are thrown. */
  method GetDashboardData(store: Ledger, session: Option<string>) returns (r: Result<seq<Transaction>>)
    requires store.Valid()
    ensures match ResolveUser(store.users, session, "User not Found")
      case Err(msg) => r == Err(msg)
      case Ok(u) =>
        && r.Ok?
        && ListingOf(r.value, Where(store.transactions, OwnedTransaction(u)), TransactionKey)
        && (forall i, j | 0 <= i < j < |r.value| :: r.value[i].createdAt >= r.value[j].createdAt)
  {
    var user := ResolveUser(store.users, session, "User not Found");
    if user.Err? {
      return Err(user.msg);
    }
    var transactions := store.transactions;
    var ids := SortedIdsDesc(transactions, OwnedTransaction(user.value), (t: Transaction) => t.createdAt);
    var rows := seq(|ids|, i requires 0 <= i < |ids| => transactions[ids[i]]);
    SelectedListing(transactions, OwnedTransaction(user.value), TransactionKey, ids, rows);
    r := Ok(rows);
  }
}
