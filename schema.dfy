/**
  The two form schemas (`accountSchema`, `transactionSchema`) as validators over
  the raw values a form submits. Each field is checked by its zod type in the
  order the object declares it; a value of the wrong type (or outside an enum)
  ABORTS the object, a string shorter than its minimum only makes it DIRTY.
  The transaction schema's refinement runs on every object that did not abort
  and adds one issue when a recurring transaction has no interval.
 */
module Schema {
  import opened Results
  import opened Store
  import opened Recurring

  /** A submitted form value, by its JavaScript type. */
  datatype Input =
    | Undefined
    | Text(s: string)
    | Flag(b: bool)
    | When(time: int)      // a valid `Date`
    | InvalidTime          // a `Date` whose time is NaN
    | OtherValue           // null, numbers, objects, ...

  datatype IssueCode = InvalidType | InvalidEnumValue | InvalidDate | TooSmall | Custom

  /**
    One reported problem. `message` is the schema's own text where it gives
    one, and None where zod generates the text.
   */
  datatype Issue = Issue(path: string, code: IssueCode, message: Option<string>)

  /** The outcome of one field: its value unless it aborted, whether it is dirty, and its issues. */
  datatype Field<T> = Field(value: Option<T>, dirty: bool, issues: seq<Issue>)

  /** What `safeParse` gives: the parsed data, or every issue found. */
  datatype Validated<T> = Accepted(data: T) | Rejected(issues: seq<Issue>)

  // Reference definitions: which inputs each field type takes.

  predicate Filled(v: Input) { v.Text? && |v.s| >= 1 }

  predicate OneOf(v: Input, options: seq<string>) { v.Text? && v.s in options }

  predicate FlagOrMissing(v: Input) { v.Undefined? || v.Flag? }

  predicate DateOrMissing(v: Input) { v.Undefined? || v.When? }

  predicate TextOrMissing(v: Input) { v.Undefined? || v.Text? }

  predicate OneOfOrMissing(v: Input, options: seq<string>) { v.Undefined? || OneOf(v, options) }

  // Field types.

  /** `z.string().min(1, message)`. */
  function MinText(v: Input, path: string, message: string): (r: Field<string>)
    ensures r.value.Some? <==> v.Text?
    ensures r.value.Some? ==> r.value.value == v.s
    ensures r.issues == [] <==> Filled(v)
    ensures r.dirty <==> v.Text? && !Filled(v)
    ensures v.Text? && !Filled(v) ==> r.issues == [Issue(path, TooSmall, Some(message))]
    ensures forall i | i in r.issues :: i.path == path && i.code != Custom
  {
    match v
    case Text(s) =>
      if |s| < 1 then Field(Some(s), true, [Issue(path, TooSmall, Some(message))])
      else Field(Some(s), false, [])
    case _ => Field(None, false, [Issue(path, InvalidType, None)])
  }

  /** `z.enum(options)`. */
  function Enum(v: Input, path: string, options: seq<string>): (r: Field<string>)
    ensures r.value.Some? <==> OneOf(v, options)
    ensures r.value.Some? ==> r.value.value == v.s
    ensures r.issues == [] <==> OneOf(v, options)
    ensures !r.dirty
    ensures forall i | i in r.issues :: i.path == path && i.code != Custom
  {
    match v
    case Text(s) =>
      if s in options then Field(Some(s), false, [])
      else Field(None, false, [Issue(path, InvalidEnumValue, None)])
    case _ => Field(None, false, [Issue(path, InvalidType, None)])
  }

  /** `z.enum(options).optional()`. */
  function OptionalEnum(v: Input, path: string, options: seq<string>): (r: Field<Option<string>>)
    ensures r.value.Some? <==> OneOfOrMissing(v, options)
    ensures r.value.Some? ==> r.value.value == (if v.Text? then Some(v.s) else None)
    ensures r.issues == [] <==> OneOfOrMissing(v, options)
    ensures !r.dirty
    ensures forall i | i in r.issues :: i.path == path && i.code != Custom
  {
    if v.Undefined? then Field(Some(None), false, [])
    else
      var e := Enum(v, path, options);
      Field(if e.value.Some? then Some(e.value) else None, false, e.issues)
  }

  /** `z.string().optional()`. */
  function OptionalText(v: Input, path: string): (r: Field<Option<string>>)
    ensures r.value.Some? <==> TextOrMissing(v)
    ensures r.value.Some? ==> r.value.value == (if v.Text? then Some(v.s) else None)
    ensures r.issues == [] <==> TextOrMissing(v)
    ensures !r.dirty
    ensures forall i | i in r.issues :: i.path == path && i.code != Custom
  {
    match v
    case Undefined => Field(Some(None), false, [])
    case Text(s) => Field(Some(Some(s)), false, [])
    case _ => Field(None, false, [Issue(path, InvalidType, None)])
  }

  /** `z.boolean().default(fallback)`. */
  function FlagOr(v: Input, path: string, fallback: bool): (r: Field<bool>)
    ensures r.value.Some? <==> FlagOrMissing(v)
    ensures r.value.Some? ==> r.value.value == (if v.Flag? then v.b else fallback)
    ensures r.issues == [] <==> FlagOrMissing(v)
    ensures !r.dirty
    ensures forall i | i in r.issues :: i.path == path && i.code != Custom
  {
    match v
    case Undefined => Field(Some(fallback), false, [])
    case Flag(b) => Field(Some(b), false, [])
    case _ => Field(None, false, [Issue(path, InvalidType, None)])
  }

  /**
    `z.date({ required_error }).default(() => new Date())`: a missing date
    becomes `now` before the date check sees it, so the required message is
    never produced; other values get zod's own messages.
   */
  function DateOr(v: Input, path: string, now: int): (r: Field<int>)
    ensures r.value.Some? <==> DateOrMissing(v)
    ensures r.value.Some? ==> r.value.value == (if v.When? then v.time else now)
    ensures r.issues == [] <==> DateOrMissing(v)
    ensures !r.dirty
    ensures forall i | i in r.issues :: i.path == path && i.code != Custom && i.message.None?
  {
    match v
    case Undefined => Field(Some(now), false, [])
    case When(t) => Field(Some(t), false, [])
    case InvalidTime => Field(None, false, [Issue(path, InvalidDate, None)])
    case _ => Field(None, false, [Issue(path, InvalidType, None)])
  }

  // accountSchema

  const AccountTypes: seq<string> := ["CURRENT", "SAVINGS"]

  datatype AccountForm = AccountForm(name: Input, kind: Input, balance: Input, isDefault: Input)

  datatype AccountData = AccountData(name: string, kind: AccountType, balance: string, isDefault: bool)

  function AccountTypeOf(name: string): AccountType {
    if name == "CURRENT" then Current else Savings
  }

  /** `accountSchema.safeParse(form)`. */
  function ParseAccount(form: AccountForm): (r: Validated<AccountData>) {
    var name := MinText(form.name, "name", "Name is Required");
    var kind := Enum(form.kind, "type", AccountTypes);
    var balance := MinText(form.balance, "balance", "Initial balance is required");
    var isDefault := FlagOr(form.isDefault, "isDefault", false);
    var issues := name.issues + kind.issues + balance.issues + isDefault.issues;
    if issues == [] then
      Accepted(AccountData(name.value.value, AccountTypeOf(kind.value.value), balance.value.value, isDefault.value.value))
    else Rejected(issues)
  }

  /** A form passes exactly when every field has a value of its type: a non-empty name and balance, a known type, a flag or nothing. */
  lemma AccountAcceptedExactly(form: AccountForm)
    ensures ParseAccount(form).Accepted? <==>
      Filled(form.name) && OneOf(form.kind, AccountTypes) && Filled(form.balance) && FlagOrMissing(form.isDefault)
  {
  }

  /** The accepted data is the submitted text, the named type, and the flag (false when left out). */
  lemma AccountAcceptedData(form: AccountForm)
    requires ParseAccount(form).Accepted?
    ensures var d := ParseAccount(form).data;
      && d.name == form.name.s && d.balance == form.balance.s
      && (d.kind == Current <==> form.kind.s == "CURRENT")
      && (d.kind == Savings <==> form.kind.s == "SAVINGS")
      && d.isDefault == (form.isDefault.Flag? && form.isDefault.b)
  {
  }

  /** An empty name or balance is reported with the schema's message, whatever else is wrong. */
  lemma EmptyAccountFieldsReported(form: AccountForm)
    ensures form.name == Text("") ==> Issue("name", TooSmall, Some("Name is Required")) in ParseAccount(form).issues
    ensures form.balance == Text("") ==>
      Issue("balance", TooSmall, Some("Initial balance is required")) in ParseAccount(form).issues
  {
    var name := MinText(form.name, "name", "Name is Required");
    var kind := Enum(form.kind, "type", AccountTypes);
    var balance := MinText(form.balance, "balance", "Initial balance is required");
    var isDefault := FlagOr(form.isDefault, "isDefault", false);
    var issues := name.issues + kind.issues + balance.issues + isDefault.issues;
    assert ParseAccount(form) == Rejected(issues) || issues == [];
    if form.name == Text("") {
      assert issues[0] == Issue("name", TooSmall, Some("Name is Required"));
    }
    if form.balance == Text("") {
      assert issues[|name.issues| + |kind.issues|] == Issue("balance", TooSmall, Some("Initial balance is required"));
    }
  }

  // transactionSchema

  const TransactionTypes: seq<string> := ["EXPENSE", "INCOME"]
  const IntervalNames: seq<string> := ["DAILY", "WEEKLY", "MONTHLY", "YEARLY"]

  /** The refinement's issue, message as the schema spells it. */
  const IntervalIssue: Issue :=
    Issue("recurringInterval", Custom, Some("Recurrign interval is required for recurring transactions"))

  datatype TransactionForm = TransactionForm(
    kind: Input, amount: Input, description: Input, date: Input,
    accountId: Input, category: Input, isRecurring: Input, recurringInterval: Input)

  datatype TransactionData = TransactionData(
    kind: TransactionType, amount: string, description: Option<string>, date: int,
    accountId: string, category: string, isRecurring: bool, recurringInterval: Option<string>)

  function TransactionTypeOf(name: string): TransactionType {
    if name == "EXPENSE" then Expense else Income
  }

  /** No field's value has the wrong type: the object does not abort and the refinement runs. */
  predicate Typed(form: TransactionForm) {
    && OneOf(form.kind, TransactionTypes)
    && form.amount.Text?
    && TextOrMissing(form.description)
    && DateOrMissing(form.date)
    && form.accountId.Text?
    && form.category.Text?
    && FlagOrMissing(form.isRecurring)
    && OneOfOrMissing(form.recurringInterval, IntervalNames)
  }

  /** The object part of `transactionSchema`: each field in declaration order, then the merge. */
  function TransactionFields(form: TransactionForm, now: int): (r: Field<TransactionData>)
    ensures r.value.Some? <==> Typed(form)
    ensures forall i | i in r.issues :: i.code != Custom
  {
    var kind := Enum(form.kind, "type", TransactionTypes);
    var amount := MinText(form.amount, "amount", "Amount is required");
    var description := OptionalText(form.description, "description");
    var date := DateOr(form.date, "date", now);
    var accountId := MinText(form.accountId, "accountId", "Account is required");
    var category := MinText(form.category, "category", "Category is required");
    var isRecurring := FlagOr(form.isRecurring, "isRecurring", false);
    var interval := OptionalEnum(form.recurringInterval, "recurringInterval", IntervalNames);
    var issues :=
      kind.issues + amount.issues + description.issues + date.issues
      + accountId.issues + category.issues + isRecurring.issues + interval.issues;
    var dirty := amount.dirty || accountId.dirty || category.dirty;
    if kind.value.Some? && amount.value.Some? && description.value.Some? && date.value.Some?
      && accountId.value.Some? && category.value.Some? && isRecurring.value.Some? && interval.value.Some?
    then
      Field(Some(TransactionData(
        TransactionTypeOf(kind.value.value), amount.value.value, description.value.value, date.value.value,
        accountId.value.value, category.value.value, isRecurring.value.value, interval.value.value)),
        dirty, issues)
    else Field(None, dirty, issues)
  }

  /** The refinement: a recurring transaction must name its interval. */
  function IntervalCheck(data: TransactionData): seq<Issue> {
    if data.isRecurring && data.recurringInterval.None? then [IntervalIssue] else []
  }

  /** `transactionSchema.safeParse(form)` with `now` the time the default date is taken. */
  function ParseTransaction(form: TransactionForm, now: int): (r: Validated<TransactionData>) {
    var fields := TransactionFields(form, now);
    if fields.value.None? then Rejected(fields.issues)
    else
      var issues := fields.issues + IntervalCheck(fields.value.value);
      if issues == [] then Accepted(fields.value.value) else Rejected(issues)
  }

  /** The transaction form's fields agree with their types' rules exactly when no field reports an issue. */
  lemma TransactionFieldsClean(form: TransactionForm, now: int)
    ensures TransactionFields(form, now).issues == [] <==>
      Typed(form) && Filled(form.amount) && Filled(form.accountId) && Filled(form.category)
  {
  }

  /**
    A transaction passes exactly when every field has a value of its type, the
    required strings are non-empty, and a recurring transaction names an interval.
   */
  lemma TransactionAcceptedExactly(form: TransactionForm, now: int)
    ensures ParseTransaction(form, now).Accepted? <==>
      && Typed(form) && Filled(form.amount) && Filled(form.accountId) && Filled(form.category)
      && !(form.isRecurring == Flag(true) && form.recurringInterval.Undefined?)
  {
    TransactionFieldsClean(form, now);
    var fields := TransactionFields(form, now);
    if fields.value.Some? {
      var data := fields.value.value;
      assert data.isRecurring <==> form.isRecurring == Flag(true);
      assert data.recurringInterval.None? <==> form.recurringInterval.Undefined?;
    }
  }

  /** The defaults: a missing date is `now`, a missing flag is false, a missing description or interval is absent. */
  lemma TransactionDefaults(form: TransactionForm, now: int)
    requires ParseTransaction(form, now).Accepted?
    ensures var d := ParseTransaction(form, now).data;
      && (form.date.Undefined? ==> d.date == now)
      && (form.date.When? ==> d.date == form.date.time)
      && (form.isRecurring.Undefined? ==> !d.isRecurring)
      && (form.description.Undefined? ==> d.description.None?)
      && (form.recurringInterval.Undefined? ==> d.recurringInterval.None?)
  {
  }

  /**
    An accepted recurring transaction carries an interval the recurring
    schedule understands, so the next date can always be computed from it.
   */
  lemma AcceptedRecurringSchedules(form: TransactionForm, now: int)
    requires ParseTransaction(form, now).Accepted?
    requires ParseTransaction(form, now).data.isRecurring
    ensures NextRecurringDate(ParseTransaction(form, now).data.date, ParseTransaction(form, now).data.recurringInterval).Ok?
  {
    TransactionAcceptedExactly(form, now);
    var d := ParseTransaction(form, now).data;
    assert form.recurringInterval.Text? && form.recurringInterval.s in IntervalNames;
    assert d.recurringInterval == Some(form.recurringInterval.s);
  }

  /** The number of refinement issues in a list. */
  function CustomCount(issues: seq<Issue>): (n: nat)
    ensures n <= |issues|
  {
    if issues == [] then 0
    else CustomCount(issues[..|issues| - 1]) + (if issues[|issues| - 1].code == Custom then 1 else 0)
  }

  lemma {:induction false} CustomCountNone(issues: seq<Issue>)
    requires forall i | i in issues :: i.code != Custom
    ensures CustomCount(issues) == 0
    decreases |issues|
  {
    if issues != [] {
      CustomCountNone(issues[..|issues| - 1]);
    }
  }

  /**
    The refinement's issue appears once exactly when every field has its type
    and the transaction is recurring without an interval; it never appears
    when a field's type was wrong, since the refinement does not run then.
   */
  lemma IntervalIssueOnce(form: TransactionForm, now: int)
    ensures ParseTransaction(form, now).Rejected? ==>
      CustomCount(ParseTransaction(form, now).issues) ==
        (if Typed(form) && form.isRecurring == Flag(true) && form.recurringInterval.Undefined? then 1 else 0)
    ensures Typed(form) && form.isRecurring == Flag(true) && form.recurringInterval.Undefined? ==>
      ParseTransaction(form, now) == Rejected(TransactionFields(form, now).issues + [IntervalIssue])
  {
    var fields := TransactionFields(form, now);
    CustomCountNone(fields.issues);
    if fields.value.Some? {
      var data := fields.value.value;
      assert data.isRecurring <==> form.isRecurring == Flag(true);
      assert data.recurringInterval.None? <==> form.recurringInterval.Undefined?;
      var issues := fields.issues + IntervalCheck(data);
      if IntervalCheck(data) != [] {
        assert issues[..|issues| - 1] == fields.issues;
      } else {
        assert issues == fields.issues;
      }
    }
  }

  /** An empty amount, account or category is reported with the schema's message, whatever else is wrong. */
  lemma EmptyTransactionFieldsReported(form: TransactionForm, now: int)
    requires form.amount == Text("") || form.accountId == Text("") || form.category == Text("")
    ensures ParseTransaction(form, now).Rejected?
    ensures form.amount == Text("") ==>
      Issue("amount", TooSmall, Some("Amount is required")) in ParseTransaction(form, now).issues
    ensures form.accountId == Text("") ==>
      Issue("accountId", TooSmall, Some("Account is required")) in ParseTransaction(form, now).issues
    ensures form.category == Text("") ==>
      Issue("category", TooSmall, Some("Category is required")) in ParseTransaction(form, now).issues
  {
    TransactionAcceptedExactly(form, now);
    var kind := Enum(form.kind, "type", TransactionTypes);
    var amount := MinText(form.amount, "amount", "Amount is required");
    var description := OptionalText(form.description, "description");
    var date := DateOr(form.date, "date", now);
    var accountId := MinText(form.accountId, "accountId", "Account is required");
    var category := MinText(form.category, "category", "Category is required");
    var isRecurring := FlagOr(form.isRecurring, "isRecurring", false);
    var interval := OptionalEnum(form.recurringInterval, "recurringInterval", IntervalNames);
    var issues :=
      kind.issues + amount.issues + description.issues + date.issues
      + accountId.issues + category.issues + isRecurring.issues + interval.issues;
    assert TransactionFields(form, now).issues == issues;
    var all := ParseTransaction(form, now).issues;
    assert issues <= all;
    var a := |kind.issues|;
    var b := a + |amount.issues| + |description.issues| + |date.issues|;
    var c := b + |accountId.issues|;
    if form.amount == Text("") {
      assert issues[a] == Issue("amount", TooSmall, Some("Amount is required"));
    }
    if form.accountId == Text("") {
      assert issues[b] == Issue("accountId", TooSmall, Some("Account is required"));
    }
    if form.category == Text("") {
      assert issues[c] == Issue("category", TooSmall, Some("Category is required"));
    }
  }
}
