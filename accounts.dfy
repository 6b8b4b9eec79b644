/**
  The account actions: making an account the user's default, reading one
  account with its transactions, and deleting a batch of transactions while
  reversing their effect on the balances of their accounts.
 */
module Accounts {
  import opened Results
  import opened Sums
  import opened Store
  import opened Listing

  // ---------------------------------------------------------------------------
  // Default account

  /**
    `updateMany({ where: { userId, isDefault: true }, data: { isDefault: false } })`:
    the user has no default account any more; nothing else changes.
   */
  function ClearDefaults(accounts: map<AccountId, Account>, u: UserId): (r: map<AccountId, Account>)
    ensures r.Keys == accounts.Keys
    ensures DefaultAccounts(r, u) == {}
    ensures forall k | k in r && accounts[k].userId != u :: r[k] == accounts[k]
    ensures forall k | k in r :: r[k].(isDefault := accounts[k].isDefault) == accounts[k]
    ensures forall k | k in r && r[k].userId == u :: !r[k].isDefault
  {
    map k | k in accounts :: if accounts[k].userId == u then accounts[k].(isDefault := false) else accounts[k]
  }

  /** Clearing a user's defaults keeps every user at one default at most. */
  lemma ClearDefaultsKeepsOneDefault(accounts: map<AccountId, Account>, u: UserId)
    requires OneDefaultPerUser(accounts)
    ensures OneDefaultPerUser(ClearDefaults(accounts, u))
  {
  }

  /**
    The two writes of `updateDefaultAccount`: clear the user's defaults, then
    set the flag on the account with this id AND this owner, or fail as the
    update does when no row matches (the first write is not undone).
   */
  function SetDefault(accounts: map<AccountId, Account>, u: UserId, id: AccountId): (Reply<Account>, map<AccountId, Account>) {
    var cleared := ClearDefaults(accounts, u);
    if id in cleared && cleared[id].userId == u then
      var chosen := cleared[id].(isDefault := true);
      (Success(chosen), cleared[id := chosen])
    else
      (Failure(RecordNotFound), cleared)
  }

  /**
    The update succeeds exactly for an account of the user's; afterwards that
    account is the user's only default, and after a failure the user has none.
   */
  lemma SetDefaultOnlyDefault(accounts: map<AccountId, Account>, u: UserId, id: AccountId)
    ensures SetDefault(accounts, u, id).0.Success? <==> id in accounts && accounts[id].userId == u
    ensures SetDefault(accounts, u, id).0.Success? ==>
      && DefaultAccounts(SetDefault(accounts, u, id).1, u) == {id}
      && SetDefault(accounts, u, id).0.data == SetDefault(accounts, u, id).1[id]
    ensures SetDefault(accounts, u, id).0.Failure? ==>
      DefaultAccounts(SetDefault(accounts, u, id).1, u) == {}
  {
  }

  /** Other users' accounts are untouched, no account appears or goes, and only default flags change. */
  lemma SetDefaultOthersUntouched(accounts: map<AccountId, Account>, u: UserId, id: AccountId)
    ensures SetDefault(accounts, u, id).1.Keys == accounts.Keys
    ensures forall k | k in accounts && accounts[k].userId != u :: SetDefault(accounts, u, id).1[k] == accounts[k]
    ensures forall k | k in accounts ::
      SetDefault(accounts, u, id).1[k].(isDefault := accounts[k].isDefault) == accounts[k]
  {
  }

  /** Setting a default keeps every user at one default at most. */
  lemma SetDefaultKeepsOneDefault(accounts: map<AccountId, Account>, u: UserId, id: AccountId)
    requires OneDefaultPerUser(accounts)
    ensures OneDefaultPerUser(SetDefault(accounts, u, id).1)
  {
    SetDefaultOnlyDefault(accounts, u, id);
    var after := SetDefault(accounts, u, id).1;
    forall a, b | a in after && b in after && after[a].isDefault && after[b].isDefault
      && after[a].userId == after[b].userId
      ensures a == b
    {
      if after[a].userId == u {
        assert a in DefaultAccounts(after, u) && b in DefaultAccounts(after, u);
      } else {
        assert after[a] == accounts[a] && after[b] == accounts[b];
      }
    }
  }

  /** Only default flags change, so the accounts table stays well formed. */
  lemma SetDefaultKeepsIds(accounts: map<AccountId, Account>, u: UserId, id: AccountId, nextId: nat)
    requires AccountIds(accounts, nextId)
    ensures AccountIds(SetDefault(accounts, u, id).1, nextId)
  {
    SetDefaultOthersUntouched(accounts, u, id);
    var after := SetDefault(accounts, u, id).1;
    assert forall k | k in after :: after[k].id == accounts[k].id;
  }

  /** `updateDefaultAccount(accountId)`: every error is caught and returned as `{ success: false, error }`. */
  method UpdateDefaultAccount(store: Ledger, session: Option<string>, id: AccountId) returns (r: Reply<Account>)
    requires store.Valid()
    modifies store
    ensures store.Valid()
    ensures store.users == old(store.users) && store.transactions == old(store.transactions)
    ensures store.budgets == old(store.budgets) && store.nextId == old(store.nextId)
    ensures match ResolveUser(old(store.users), session, "User not Found")
      case Err(msg) => r == Failure(msg) && store.accounts == old(store.accounts)
      case Ok(u) => r == SetDefault(old(store.accounts), u, id).0 && store.accounts == SetDefault(old(store.accounts), u, id).1
  {
    var user := ResolveUser(store.users, session, "User not Found");
    if user.Err? {
      return Failure(user.msg);
    }
    var u := user.value;
    SetDefaultKeepsIds(store.accounts, u, id, store.nextId);
    store.accounts := ClearDefaults(store.accounts, u);
    if id in store.accounts && store.accounts[id].userId == u {
      var chosen := store.accounts[id].(isDefault := true);
      store.accounts := store.accounts[id := chosen];
      r := Success(chosen);
    } else {
      r := Failure(RecordNotFound);
    }
  }

  // ---------------------------------------------------------------------------
  // One account with its transactions

  /** The rows of account `a`: the account's `transactions` relation. */
  function OnAccount(a: AccountId): Transaction -> bool {
    (t: Transaction) => t.accountId == a
  }

  datatype AccountView = AccountView(account: Account, transactions: seq<Transaction>, transactionCount: nat)

  /**
    `getAccountWithTransactions(accountId)`: null for an account that is
    missing or someone else's, otherwise the account with all its transactions,
    latest date first, and their number.  Errors are thrown.
   */
  method GetAccountWithTransactions(store: Ledger, session: Option<string>, id: AccountId)
    returns (r: Result<Option<AccountView>>)
    requires store.Valid()
    ensures match ResolveUser(store.users, session, "User not Found")
      case Err(msg) => r == Err(msg)
      case Ok(u) =>
        && r.Ok?
        && (r.value.None? <==> id !in store.accounts || store.accounts[id].userId != u)
        && (r.value.Some? ==>
             var view := r.value.value;
             && view.account == store.accounts[id]
             && ListingOf(view.transactions, Where(store.transactions, OnAccount(id)), TransactionKey)
             && (forall i, j | 0 <= i < j < |view.transactions| :: view.transactions[i].date >= view.transactions[j].date)
             && view.transactionCount == |Where(store.transactions, OnAccount(id))|)
  {
    var user := ResolveUser(store.users, session, "User not Found");
    if user.Err? {
      return Err(user.msg);
    }
    if id !in store.accounts || store.accounts[id].userId != user.value {
      return Ok(None);
    }
    var transactions := store.transactions;
    var ids := SortedIdsDesc(transactions, OnAccount(id), (t: Transaction) => t.date);
    var rows := seq(|ids|, i requires 0 <= i < |ids| => transactions[ids[i]]);
    SelectedListing(transactions, OnAccount(id), TransactionKey, ids, rows);
    ListingSum(rows, Where(transactions, OnAccount(id)), TransactionKey, Amount);
    r := Ok(Some(AccountView(store.accounts[id], rows, |rows|)));
  }

  // ---------------------------------------------------------------------------
  // Bulk delete

  /** The rows `deleteMany` removes: an id in the list and the caller's own. */
  function ToDelete(ids: set<TransactionId>, u: UserId): Transaction -> bool {
    (t: Transaction) => t.id in ids && t.userId == u
  }

  /** What deleting a row does to its account's balance: +amount for an expense, -amount for income. */
  function Reversal(t: Transaction): (r: int)
    ensures r == -SignedAmount(t)
  {
    if t.kind == Expense then t.amount else -t.amount
  }

  /** A row's weight in account `a`'s balance, and the weight of deleting it. */
  function SignedOn(a: AccountId): Transaction -> int {
    (t: Transaction) => if t.accountId == a then SignedAmount(t) else 0
  }

  function ReversalOn(a: AccountId): Transaction -> int {
    (t: Transaction) => if t.accountId == a then Reversal(t) else 0
  }

  /** The `reduce` into `accountBalanceChanges`, row by row. */
  function Changes(rows: seq<Transaction>): map<AccountId, int>
    decreases |rows|
  {
    if |rows| == 0 then map[]
    else
      var last := rows[|rows| - 1];
      AddTo(Changes(rows[..|rows| - 1]), last.accountId, Reversal(last))
  }

  function RowAccounts(rows: seq<Transaction>): set<AccountId> {
    set i | 0 <= i < |rows| :: rows[i].accountId
  }

  /** The accounts that own a row of `m`. */
  function AccountsOf(m: map<TransactionId, Transaction>): set<AccountId> {
    set k | k in m :: m[k].accountId
  }

  /** The reduce has an entry for exactly the accounts of the rows. */
  lemma {:induction false} ChangesKeys(rows: seq<Transaction>)
    ensures Changes(rows).Keys == RowAccounts(rows)
    decreases |rows|
  {
    if |rows| != 0 {
      var front := rows[..|rows| - 1];
      ChangesKeys(front);
      assert RowAccounts(rows) == RowAccounts(front) + {rows[|rows| - 1].accountId} by {
        forall a | a in RowAccounts(rows) ensures a in RowAccounts(front) || a == rows[|rows| - 1].accountId {
          var i :| 0 <= i < |rows| && rows[i].accountId == a;
          if i < |front| {
            assert front[i] == rows[i];
          }
        }
        forall a | a in RowAccounts(front) ensures a in RowAccounts(rows) {
          var i :| 0 <= i < |front| && front[i].accountId == a;
          assert rows[i] == front[i];
        }
      }
    }
  }

  /** Each account's entry is the sum of the reversals of its own rows. */
  lemma {:induction false} ChangesFigure(rows: seq<Transaction>, a: AccountId)
    ensures (if a in Changes(rows) then Changes(rows)[a] else 0) == SeqSum(rows, ReversalOn(a))
    decreases |rows|
  {
    if |rows| != 0 {
      ChangesFigure(rows[..|rows| - 1], a);
    }
  }

  /** A listing owns exactly the table's accounts. */
  lemma ListingAccounts(rows: seq<Transaction>, m: map<TransactionId, Transaction>)
    requires ListingOf(rows, m, TransactionKey)
    ensures RowAccounts(rows) == AccountsOf(m)
  {
    forall a | a in AccountsOf(m) ensures a in RowAccounts(rows) {
      var k :| k in m && m[k].accountId == a;
      var i :| 0 <= i < |rows| && rows[i].id == k;
      assert rows[i] == m[k];
    }
    forall a | a in RowAccounts(rows) ensures a in AccountsOf(m) {
      var i :| 0 <= i < |rows| && rows[i].accountId == a;
      assert rows[i].id in m;
    }
  }

  /** The balance change each owning account receives for deleting the rows of `selected`. */
  ghost function BalanceChanges(selected: map<TransactionId, Transaction>): (r: map<AccountId, int>)
    ensures r.Keys == AccountsOf(selected)
  {
    map a | a in AccountsOf(selected) :: MapSum(selected, ReversalOn(a))
  }

  /** The reduce, over any listing of the selected rows, computes the balance changes. */
  lemma ChangesOfListing(rows: seq<Transaction>, selected: map<TransactionId, Transaction>)
    requires ListingOf(rows, selected, TransactionKey)
    ensures Changes(rows) == BalanceChanges(selected)
  {
    ChangesKeys(rows);
    ListingAccounts(rows, selected);
    var changes, expected := Changes(rows), BalanceChanges(selected);
    assert changes.Keys == expected.Keys;
    forall a | a in changes ensures changes[a] == expected[a] {
      ChangeOfListing(rows, selected, a);
    }
  }

  lemma ChangeOfListing(rows: seq<Transaction>, selected: map<TransactionId, Transaction>, a: AccountId)
    requires ListingOf(rows, selected, TransactionKey)
    ensures (if a in Changes(rows) then Changes(rows)[a] else 0) == MapSum(selected, ReversalOn(a))
  {
    ChangesFigure(rows, a);
    ListingSum(rows, selected, TransactionKey, ReversalOn(a));
  }

  /** An account owning none of the deleted rows has nothing to reverse. */
  lemma NoChangeWithoutRows(selected: map<TransactionId, Transaction>, a: AccountId)
    requires a !in AccountsOf(selected)
    ensures MapSum(selected, ReversalOn(a)) == 0
  {
    forall k | k in selected ensures ReversalOn(a)(selected[k]) == 0 {
      assert selected[k].accountId in AccountsOf(selected);
    }
    MapSumZero(selected, ReversalOn(a));
  }

  /** Every account named in `changes` gets `increment: change`; the others are untouched. */
  function Adjusted(accounts: map<AccountId, Account>, changes: map<AccountId, int>): (r: map<AccountId, Account>)
    ensures r.Keys == accounts.Keys
    ensures forall k | k in r && k !in changes :: r[k] == accounts[k]
    ensures forall k | k in r && k in changes :: r[k].balance == accounts[k].balance + changes[k]
    ensures forall k | k in r :: r[k].(balance := accounts[k].balance) == accounts[k]
  {
    map k | k in accounts :: if k in changes then accounts[k].(balance := accounts[k].balance + changes[k]) else accounts[k]
  }

  /**
    The loop of `increment`s inside the database transaction: one update per
    entry of `changes`.  An entry whose account does not exist fails, and the
    caller rolls everything back.
   */
  method ApplyChanges(accounts: map<AccountId, Account>, changes: map<AccountId, int>)
    returns (ok: bool, updated: map<AccountId, Account>)
    ensures ok <==> changes.Keys <= accounts.Keys
    ensures ok ==> updated == Adjusted(accounts, changes)
  {
    updated := accounts;
    var pending := changes.Keys;
    while pending != {}
      invariant pending <= changes.Keys
      invariant updated.Keys == accounts.Keys
      invariant changes.Keys - pending <= accounts.Keys
      invariant forall k | k in updated ::
        updated[k] == (if k in changes && k !in pending then accounts[k].(balance := accounts[k].balance + changes[k])
                       else accounts[k])
      decreases pending
    {
      var a :| a in pending;
      if a !in updated {
        return false, accounts;
      }
      updated := updated[a := updated[a].(balance := updated[a].balance + changes[a])];
      pending := pending - {a};
    }
    return true, updated;
  }

  /**
    `bulkDeleteTransactions(transactionIds)`.  The caller's rows with a listed id
    are found, their reversals summed per account, and then, inside one database
    transaction, the rows are deleted and every owning account is incremented by
    its change; when an increment fails the database transaction is rolled back.
    Errors come back as `{ success: false, error }`.
   */
  method BulkDeleteTransactions(store: Ledger, session: Option<string>, ids: set<TransactionId>)
    returns (r: Reply<()>)
    requires store.Valid()
    modifies store
    ensures store.Valid()
    ensures store.users == old(store.users) && store.budgets == old(store.budgets) && store.nextId == old(store.nextId)
    ensures match ResolveUser(old(store.users), session, "User not found")
      case Err(msg) =>
        r == Failure(msg) && store.accounts == old(store.accounts) && store.transactions == old(store.transactions)
      case Ok(u) =>
        var selected := Where(old(store.transactions), ToDelete(ids, u));
        if AccountsOf(selected) <= old(store.accounts).Keys then
          && r == Success(())
          && store.transactions == Where(old(store.transactions), Not(ToDelete(ids, u)))
          && store.accounts == Adjusted(old(store.accounts), BalanceChanges(selected))
        else
          && r == Failure(RecordNotFound)
          && store.accounts == old(store.accounts) && store.transactions == old(store.transactions)
  {
    var user := ResolveUser(store.users, session, "User not found");
    if user.Err? {
      return Failure(user.msg);
    }
    var u := user.value;
    var transactions := store.transactions;
    var found := SortedIdsDesc(transactions, ToDelete(ids, u), (t: Transaction) => 0);
    var rows := seq(|found|, i requires 0 <= i < |found| => transactions[found[i]]);
    SelectedListing(transactions, ToDelete(ids, u), TransactionKey, found, rows);
    var changes := Changes(rows);
    ChangesOfListing(rows, Where(transactions, ToDelete(ids, u)));

    var ok, accounts := ApplyChanges(store.accounts, changes);
    if !ok {
      return Failure(RecordNotFound);
    }
    store.transactions := Where(transactions, Not(ToDelete(ids, u)));
    store.accounts := accounts;
    r := Success(());
  }

  /**
    Deleting rows keeps each account's opening balance: its balance minus the
    signed amounts of the rows still recorded against it is what it was before.
   */
  lemma DeleteKeepsOpeningBalance(
    accounts: map<AccountId, Account>, transactions: map<TransactionId, Transaction>,
    p: Transaction -> bool, a: AccountId)
    requires a in accounts
    ensures var after := Adjusted(accounts, BalanceChanges(Where(transactions, p)));
      after[a].balance - MapSum(Where(transactions, Not(p)), SignedOn(a))
        == accounts[a].balance - MapSum(transactions, SignedOn(a))
  {
    var selected := Where(transactions, p);
    MapSumWhereSplit(transactions, p, SignedOn(a));
    ReversalNegates(selected, a);
    if a !in AccountsOf(selected) {
      NoChangeWithoutRows(selected, a);
    }
  }

  /** Reversing rows sums to the negation of their signed effect. */
  lemma ReversalNegates(selected: map<TransactionId, Transaction>, a: AccountId)
    ensures MapSum(selected, ReversalOn(a)) == -MapSum(selected, SignedOn(a))
  {
    MapSumNegate(selected, SignedOn(a), ReversalOn(a));
  }

  /** Only the caller's listed rows go; every other row stays exactly as it was. */
  lemma DeleteRemovesOnlySelected(transactions: map<TransactionId, Transaction>, ids: set<TransactionId>, u: UserId)
    ensures var remaining := Where(transactions, Not(ToDelete(ids, u)));
      && (forall k | k in transactions :: k in remaining <==> !(transactions[k].id in ids && transactions[k].userId == u))
      && (forall k | k in remaining :: remaining[k] == transactions[k])
  {
  }
}
