/**
  The recurring-transaction engine of the background jobs: the interval step,
  the due predicate and the daily due-set scan that fans out one event per due
  template, and the catch-up that replays every missed occurrence of one
  template and commits the copies, the balance change and the template's new
  schedule in one atomic write.
 */
module Recurring {
  import opened Results
  import opened Calendar
  import opened Sums
  import opened Store

  datatype Interval = Daily | Weekly | Monthly | Yearly

  /** The stored interval names the step understands; anything else (or no interval) is not one. */
  function IntervalFor(name: Option<string>): (r: Option<Interval>)
    ensures r == Some(Daily) <==> name == Some("DAILY")
    ensures r == Some(Weekly) <==> name == Some("WEEKLY")
    ensures r == Some(Monthly) <==> name == Some("MONTHLY")
    ensures r == Some(Yearly) <==> name == Some("YEARLY")
  {
    match name
    case Some(s) =>
      if s == "DAILY" then Some(Daily)
      else if s == "WEEKLY" then Some(Weekly)
      else if s == "MONTHLY" then Some(Monthly)
      else if s == "YEARLY" then Some(Yearly)
      else None
    case None => None
  }

  /**
    `setMonth(getMonth() + 1)`: the same day-of-month in the next month at the
    same time of day.  A day-of-month the next month lacks rolls over into the
    month after it; it is never clamped.
   */
  function AddMonth(t: int): (r: int)
    ensures var c := CivilOf(t); DayOf(r) == MakeDay(c.year, c.month + 1, c.day)
    ensures TimeInDay(r) == TimeInDay(t)
    ensures DayOf(r) > DayOf(t)
  {
    var c := CivilOf(t);
    ToCivilInverse(DayOf(t));
    MakeDayNextMonth(c.year, c.month, c.day);
    DayOfAtTime(MakeDay(c.year, c.month + 1, c.day), TimeInDay(t));
    AtTime(MakeDay(c.year, c.month + 1, c.day), TimeInDay(t))
  }

  /**
    `setFullYear(getFullYear() + 1)`: the same month and day in the next year
    at the same time of day (February 29 rolls over into March 1).
   */
  function AddYear(t: int): (r: int)
    ensures var c := CivilOf(t); DayOf(r) == MakeDay(c.year + 1, c.month, c.day)
    ensures TimeInDay(r) == TimeInDay(t)
    ensures DayOf(r) > DayOf(t)
  {
    var c := CivilOf(t);
    ToCivilInverse(DayOf(t));
    MakeDayNextYear(c.year, c.month, c.day);
    DayOfAtTime(MakeDay(c.year + 1, c.month, c.day), TimeInDay(t));
    AtTime(MakeDay(c.year + 1, c.month, c.day), TimeInDay(t))
  }

  /** One interval after `t`, at the same time of day. */
  function Advance(t: int, i: Interval): (r: int)
    ensures DayOf(r) > DayOf(t)
    ensures TimeInDay(r) == TimeInDay(t)
    ensures r > t
  {
    match i
    case Daily => t + SecondsPerDay
    case Weekly => t + 7 * SecondsPerDay
    case Monthly => AddMonth(t)
    case Yearly => AddYear(t)
  }

  /** `calculateNextRecurringDate`: the step for a stored interval, or the error it throws. */
  function NextRecurringDate(t: int, interval: Option<string>): (r: Result<int>)
    ensures r.Ok? <==> interval in {Some("DAILY"), Some("WEEKLY"), Some("MONTHLY"), Some("YEARLY")}
    ensures r.Ok? ==> r.value > t && TimeInDay(r.value) == TimeInDay(t)
    ensures r.Err? ==> r.msg == "Invalid recurring interval"
  {
    match IntervalFor(interval)
    case Some(i) => Ok(Advance(t, i))
    case None => Err("Invalid recurring interval")
  }

  lemma DailyAndWeeklyStep(t: int)
    ensures NextRecurringDate(t, Some("DAILY")) == Ok(t + 86400)
    ensures NextRecurringDate(t, Some("WEEKLY")) == Ok(t + 7 * 86400)
  {
  }

  /** A monthly step lands on the civil date of the same day-of-month in the next month, normalised. */
  lemma MonthlyDay(t: int)
    ensures CivilOf(AddMonth(t)) == ToCivil(MakeDay(CivilOf(t).year, CivilOf(t).month + 1, CivilOf(t).day))
  {
  }

  /** A monthly step keeps the day-of-month when the next month has that day. */
  lemma MonthlyKeepsDay(t: int)
    requires var c := CivilOf(t); c.day <= DaysInMonth(NextMonth(c.year, c.month).0, NextMonth(c.year, c.month).1)
    ensures var c := CivilOf(t); var (ny, nm) := NextMonth(c.year, c.month);
      CivilOf(AddMonth(t)) == Civil(ny, nm, c.day)
  {
    var c := CivilOf(t);
    var (ny, nm) := NextMonth(c.year, c.month);
    MonthlyDay(t);
    MakeDayNextMonth(c.year, c.month, c.day);
    ToCivilMakeDay(ny, nm, c.day);
  }

  /**
    A monthly step from a day-of-month the next month lacks rolls the surplus
    days into the month after it.
   */
  lemma MonthlyOverflows(t: int)
    requires var c := CivilOf(t); c.day > DaysInMonth(NextMonth(c.year, c.month).0, NextMonth(c.year, c.month).1)
    ensures var c := CivilOf(t); var (ny, nm) := NextMonth(c.year, c.month);
      var (ay, am) := NextMonth(ny, nm);
      CivilOf(AddMonth(t)) == Civil(ay, am, c.day - DaysInMonth(ny, nm))
  {
    var c := CivilOf(t);
    var (ny, nm) := NextMonth(c.year, c.month);
    var (ay, am) := NextMonth(ny, nm);
    var surplus := c.day - DaysInMonth(ny, nm);
    MonthlyDay(t);
    MakeDayNextMonth(c.year, c.month, c.day);
    MakeDayInYear(ny, nm, c.day);
    MakeDayInYear(ny, nm, surplus);
    MakeDayNextMonth(ny, nm, surplus);
    ToCivilMakeDay(ay, am, surplus);
  }

  /** January 31 plus one month is March 3, or March 2 in a leap year. */
  lemma JanuaryThirtyFirstPlusOneMonth(t: int)
    requires CivilOf(t).month == 0 && CivilOf(t).day == 31
    ensures CivilOf(AddMonth(t)) == Civil(CivilOf(t).year, 2, if IsLeap(CivilOf(t).year) then 2 else 3)
  {
    var c := CivilOf(t);
    assert NextMonth(c.year, c.month) == (c.year, 1);
    assert NextMonth(c.year, 1) == (c.year, 2);
    assert DaysInMonth(c.year, 1) == if IsLeap(c.year) then 29 else 28;
    MonthlyOverflows(t);
  }

  /** A yearly step lands on the civil date of the same month and day a year on. */
  lemma YearlyDay(t: int)
    ensures CivilOf(AddYear(t)) == ToCivil(MakeDay(CivilOf(t).year + 1, CivilOf(t).month, CivilOf(t).day))
  {
  }

  /** A yearly step keeps month and day ... */
  lemma YearlyKeepsDate(t: int)
    requires !(CivilOf(t).month == 1 && CivilOf(t).day == 29)
    ensures CivilOf(AddYear(t)) == Civil(CivilOf(t).year + 1, CivilOf(t).month, CivilOf(t).day)
  {
    YearlyDay(t);
    SameDateNextYear(CivilOf(t));
  }

  /** ... except that February 29 becomes March 1. */
  lemma YearlyFromLeapDay(t: int)
    requires CivilOf(t).month == 1 && CivilOf(t).day == 29
    ensures CivilOf(AddYear(t)) == Civil(CivilOf(t).year + 1, 2, 1)
  {
    YearlyDay(t);
    LeapDayOneYearLater(CivilOf(t).year);
  }

  /** Any other date exists in the next year too, and a yearly step lands on it. */
  lemma SameDateNextYear(c: Civil)
    requires c.Valid() && !(c.month == 1 && c.day == 29)
    ensures ToCivil(MakeDay(c.year + 1, c.month, c.day)) == Civil(c.year + 1, c.month, c.day)
  {
    LeapDayOnlyInLeapYears(c);
    ToCivilMakeDay(c.year + 1, c.month, c.day);
  }

  /** February 29 of a leap year, a year on, is March 1. */
  lemma LeapDayOneYearLater(y: int)
    requires IsLeap(y)
    ensures ToCivil(MakeDay(y + 1, 1, 29)) == Civil(y + 1, 2, 1)
  {
    LeapDayNextYear(y);
    ToCivilMakeDay(y + 1, 2, 1);
  }

  /** The year after a leap year has no February 29: asking for it gives March 1. */
  lemma LeapDayNextYear(y: int)
    requires IsLeap(y)
    ensures MakeDay(y + 1, 1, 29) == MakeDay(y + 1, 2, 1)
  {
    LeapYearsApart(y);
    MakeDayInYear(y + 1, 1, 29);
    MakeDayInYear(y + 1, 2, 1);
  }

  lemma LeapYearsApart(y: int)
    requires IsLeap(y)
    ensures !IsLeap(y + 1)
  {
  }

  lemma LeapDayOnlyInLeapYears(c: Civil)
    requires c.Valid() && !(c.month == 1 && c.day == 29)
    ensures Civil(c.year + 1, c.month, c.day).Valid()
  {
  }

  // ---------------------------------------------------------------------------
  // Due templates

  /**
    `isTransactionDue`: never processed, or the next occurrence is not after
    `now`.  A missing `nextRecurringDate` reads as the epoch (what `new Date(null)` gives).
   */
  predicate IsTransactionDue(t: Transaction, now: int) {
    t.lastProcessed.None? || t.nextRecurringDate.GetOr(0) <= now
  }

  /**
    The daily scan's filter: recurring, COMPLETED, and never processed or next
    occurrence not after `now` (a NULL `nextRecurringDate` fails the `lte` test).
   */
  predicate SelectedForProcessing(t: Transaction, now: int) {
    && t.isRecurring
    && t.status == Completed
    && (t.lastProcessed.None? || (t.nextRecurringDate.Some? && t.nextRecurringDate.value <= now))
  }

  /** Every template the scan selects passes the processing job's own due test. */
  lemma SelectedIsDue(t: Transaction, now: int)
    requires SelectedForProcessing(t, now)
    ensures IsTransactionDue(t, now)
  {
  }

  /**
    The two tests differ on exactly one kind of row: processed before but with
    no next date, which the job would process but the scan never selects.
   */
  lemma DueButNotSelected(t: Transaction, now: int)
    requires t.isRecurring && t.status == Completed
    ensures IsTransactionDue(t, now) && !SelectedForProcessing(t, now)
        <==> t.lastProcessed.Some? && t.nextRecurringDate.None? && 0 <= now
  {
  }

  datatype Event = Event(name: string, transactionId: Option<TransactionId>, userId: Option<UserId>)

  const ProcessEventName: string := "transaction.recurring.process"

  /**
    `triggerRecurringTransactions`: one "transaction.recurring.process" event
    per selected template, carrying its id and its owner; `triggered` counts them.
   */
  method TriggerRecurringTransactions(store: Ledger, now: int) returns (events: seq<Event>, triggered: nat)
    requires store.Valid()
    ensures triggered == |events|
    ensures forall k | k in store.transactions && SelectedForProcessing(store.transactions[k], now) ::
      Event(ProcessEventName, Some(k), Some(store.transactions[k].userId)) in events
    ensures forall e | e in events ::
      && e.name == ProcessEventName
      && e.transactionId.Some? && e.transactionId.value in store.transactions
      && SelectedForProcessing(store.transactions[e.transactionId.value], now)
      && e.userId == Some(store.transactions[e.transactionId.value].userId)
    ensures forall a, b | 0 <= a < b < |events| :: events[a].transactionId != events[b].transactionId
  {
    var rest := set k | k in store.transactions && SelectedForProcessing(store.transactions[k], now);
    events := [];
    ghost var sent: set<TransactionId> := {};
    while rest != {}
      invariant forall k | k in store.transactions && SelectedForProcessing(store.transactions[k], now) ::
        k in rest || Event(ProcessEventName, Some(k), Some(store.transactions[k].userId)) in events
      invariant forall k | k in rest :: k in store.transactions && SelectedForProcessing(store.transactions[k], now) && k !in sent
      invariant forall e | e in events ::
        && e.name == ProcessEventName
        && e.transactionId.Some? && e.transactionId.value in sent
        && e.transactionId.value in store.transactions
        && SelectedForProcessing(store.transactions[e.transactionId.value], now)
        && e.userId == Some(store.transactions[e.transactionId.value].userId)
      invariant forall a, b | 0 <= a < b < |events| :: events[a].transactionId != events[b].transactionId
      decreases rest
    {
      var k :| k in rest;
      events := events + [Event(ProcessEventName, Some(k), Some(store.transactions[k].userId))];
      sent := sent + {k};
      rest := rest - {k};
    }
    triggered := |events|;
  }

  // ---------------------------------------------------------------------------
  // Catch-up replay

  /** The interval step as a function of the date. */
  function StepOf(i: Interval): int -> int {
    t => Advance(t, i)
  }

  /** A step that always moves to a later calendar day (and so to a later time). */
  ghost predicate MovesToLaterDay(step: int -> int) {
    forall t :: DayOf(step(t)) > DayOf(t) && step(t) > t
  }

  /** Every interval step moves to a later calendar day. */
  lemma IntervalStepsMoveOn(i: Interval)
    ensures MovesToLaterDay(StepOf(i))
  {
    forall t ensures DayOf(StepOf(i)(t)) > DayOf(t) && StepOf(i)(t) > t {
      assert StepOf(i)(t) == Advance(t, i);
    }
  }

  /** The date `n` steps after `d`. */
  function Steps(d: int, step: int -> int, n: nat): int
    decreases n
  {
    if n == 0 then d else Steps(step(d), step, n - 1)
  }

  lemma {:induction false} StepsIncreasing(d: int, step: int -> int, a: nat, b: nat)
    requires MovesToLaterDay(step)
    requires a < b
    ensures Steps(d, step, a) < Steps(d, step, b)
    decreases b
  {
    if a == 0 {
      if b > 1 {
        StepsIncreasing(step(d), step, 0, b - 1);
      }
    } else {
      StepsIncreasing(step(d), step, a - 1, b - 1);
    }
  }

  lemma {:induction false} StepsAdvance(d: int, step: int -> int, k: nat)
    ensures Steps(d, step, k + 1) == step(Steps(d, step, k))
    decreases k
  {
    if k > 0 {
      StepsAdvance(step(d), step, k - 1);
    }
  }

  /** The dates the catch-up materialises, and the date it stops at. */
  datatype Replay = Replay(dates: seq<int>, next: int)

  /**
    The catch-up loop from date `d`: visit `d`, then one step later, ... while
    the date is not after `now`; keep a visited date only if its calendar day
    is before today's.  Every kept date is on an earlier day than `now`, and
    the loop stops at a date after `now`.
   */
  function Occurrences(d: int, now: int, step: int -> int): (r: Replay)
    requires MovesToLaterDay(step)
    ensures r.next > now
    ensures r.next >= d
    ensures forall k | 0 <= k < |r.dates| :: d <= r.dates[k] <= now && DayOf(r.dates[k]) < DayOf(now)
    decreases now - d
  {
    if d > now then Replay([], d)
    else
      var rest := Occurrences(step(d), now, step);
      if DayOf(d) < DayOf(now) then Replay([d] + rest.dates, rest.next) else rest
  }

  /** One turn of the catch-up loop, from a date not after `now`. */
  lemma OccurrencesUnfold(d: int, now: int, step: int -> int)
    requires MovesToLaterDay(step)
    requires d <= now
    ensures var rest := Occurrences(step(d), now, step);
      Occurrences(d, now, step) == if DayOf(d) < DayOf(now) then Replay([d] + rest.dates, rest.next) else rest
  {
  }

  lemma DayOfMonotone(a: int, b: int)
    ensures a <= b ==> DayOf(a) <= DayOf(b)
  {
  }

  /**
    The kept dates are exactly the first `|dates|` steps from `d`, in order; the
    loop stops at the next step, or one step later when that step falls on
    today: the one occurrence on today is stepped past but not materialised.
   */
  lemma {:induction false} OccurrencesAreSteps(d: int, now: int, step: int -> int)
    requires MovesToLaterDay(step)
    ensures var r := Occurrences(d, now, step);
      && (forall k | 0 <= k < |r.dates| :: r.dates[k] == Steps(d, step, k))
      && var e := Steps(d, step, |r.dates|);
         && (e <= now ==> DayOf(e) == DayOf(now) && r.next == step(e))
         && (e > now ==> r.next == e)
    decreases now - d
  {
    var r := Occurrences(d, now, step);
    if d <= now {
      var a := step(d);
      var rest := Occurrences(a, now, step);
      OccurrencesAreSteps(a, now, step);
      if DayOf(d) < DayOf(now) {
        assert r.dates == [d] + rest.dates;
        assert Steps(d, step, |r.dates|) == Steps(a, step, |rest.dates|);
      } else {
        DayOfMonotone(d, now);
        DayOfMonotone(a, now);
        assert rest.dates == [] && r == rest;
      }
    }
  }

  /** Consecutive materialised dates are exactly one step apart. */
  lemma ConsecutiveOccurrences(d: int, now: int, step: int -> int, k: nat)
    requires MovesToLaterDay(step)
    requires k + 1 < |Occurrences(d, now, step).dates|
    ensures Occurrences(d, now, step).dates[k + 1] == step(Occurrences(d, now, step).dates[k])
  {
    OccurrencesAreSteps(d, now, step);
    StepsAdvance(d, step, k);
  }

  /** The loop stops at the FIRST step after `now`: no step after `now` comes before it. */
  lemma {:induction false} OccurrencesStopFirst(d: int, now: int, step: int -> int, n: nat)
    requires MovesToLaterDay(step)
    requires Steps(d, step, n) > now
    ensures Occurrences(d, now, step).next <= Steps(d, step, n)
    decreases n
  {
    if d > now {
      if n > 0 { StepsIncreasing(d, step, 0, n); }
    } else {
      OccurrencesStopFirst(step(d), now, step, n - 1);
    }
  }

  /**
    A weekly template last stepped to `d0` + 7 days and run 20 days after `d0`
    materialises `d0` + 7 and `d0` + 14 days and moves on to `d0` + 21 days.
   */
  lemma WeeklyCatchUpExample(d0: int)
    ensures MovesToLaterDay(StepOf(Weekly))
      && Occurrences(d0 + 7 * 86400, d0 + 20 * 86400, StepOf(Weekly))
         == Replay([d0 + 7 * 86400, d0 + 14 * 86400], d0 + 21 * 86400)
  {
    var now := d0 + 20 * 86400;
    var step := StepOf(Weekly);
    IntervalStepsMoveOn(Weekly);
    assert DayOf(d0 + 7 * 86400) == DayOf(d0) + 7;
    assert DayOf(d0 + 14 * 86400) == DayOf(d0) + 14;
    assert DayOf(now) == DayOf(d0) + 20;
    assert step(d0 + 7 * 86400) == d0 + 14 * 86400;
    assert step(d0 + 14 * 86400) == d0 + 21 * 86400;
    assert Occurrences(d0 + 21 * 86400, now, step) == Replay([], d0 + 21 * 86400);
  }

  /** Where the catch-up starts: the stored next date once processed, else the template's own date. */
  function StartDate(template: Transaction): int {
    if template.lastProcessed.Some? then template.nextRecurringDate.GetOr(0) else template.date
  }

  /**
    The whole catch-up of one template: the step is only taken, and so can only
    fail on an unknown interval, when the start is not after `now`.
   */
  function CatchUp(template: Transaction, now: int): (r: Result<Replay>)
    ensures r.Err? <==> StartDate(template) <= now && IntervalFor(template.recurringInterval).None?
    ensures r.Err? ==> r.msg == "Invalid recurring interval"
    ensures r.Ok? ==> r.value.next > now && r.value.next >= StartDate(template)
  {
    var start := StartDate(template);
    if start > now then Ok(Replay([], start))
    else match IntervalFor(template.recurringInterval)
      case Some(i) =>
        IntervalStepsMoveOn(i);
        Ok(Occurrences(start, now, StepOf(i)))
      case None => Err("Invalid recurring interval")
  }

  /** The object the loop pushes for one occurrence. */
  datatype Draft = Draft(
    kind: TransactionType,
    amount: int,
    description: string,
    date: int,
    category: string,
    userId: UserId,
    accountId: AccountId,
    isRecurring: bool)

  /** The template's description with " (Recurring)" appended; a missing one prints as "null". */
  function RecurringDescription(description: Option<string>): string {
    (match description case Some(s) => s case None => "null") + " (Recurring)"
  }

  function DraftFor(template: Transaction, date: int): Draft {
    Draft(template.kind, template.amount, RecurringDescription(template.description), date,
          template.category, template.userId, template.accountId, false)
  }

  lemma DraftsForAppend(template: Transaction, dates: seq<int>, d: int)
    ensures DraftsFor(template, dates + [d]) == DraftsFor(template, dates) + [DraftFor(template, d)]
  {
    assert forall k | 0 <= k < |dates| :: (dates + [d])[k] == dates[k];
  }

  /** The drafts for the given dates, in the same order. */
  function DraftsFor(template: Transaction, dates: seq<int>): (r: seq<Draft>)
    ensures |r| == |dates|
    ensures forall k | 0 <= k < |r| :: r[k] == DraftFor(template, dates[k])
  {
    seq(|dates|, k requires 0 <= k < |dates| => DraftFor(template, dates[k]))
  }

  /**
    Each draft is a one-off copy of the template on its own date: same type,
    amount, category, owner and account, and the description marked as recurring.
   */
  lemma DraftsCopyTemplate(template: Transaction, dates: seq<int>, k: nat)
    requires k < |dates|
    ensures var d := DraftsFor(template, dates)[k];
      && d.date == dates[k] && !d.isRecurring
      && d.kind == template.kind && d.amount == template.amount && d.category == template.category
      && d.userId == template.userId && d.accountId == template.accountId
      && d.description == (if template.description.Some? then template.description.value else "null") + " (Recurring)"
  {
  }

  /** The reduce over the drafts: + amount for income, - amount for an expense. */
  function TotalAmount(drafts: seq<Draft>): int {
    if |drafts| == 0 then 0
    else
      var last := drafts[|drafts| - 1];
      TotalAmount(drafts[..|drafts| - 1]) + (if last.kind == Expense then -last.amount else last.amount)
  }

  /** Every draft of one template moves the balance by the template's own signed amount. */
  lemma {:induction false} TotalAmountOfTemplate(template: Transaction, dates: seq<int>)
    ensures TotalAmount(DraftsFor(template, dates)) == |dates| * SignedAmount(template)
    decreases |dates|
  {
    if |dates| > 0 {
      var n := |dates| - 1;
      assert DraftsFor(template, dates)[..n] == DraftsFor(template, dates[..n]);
      TotalAmountOfTemplate(template, dates[..n]);
    }
  }

  /**
    The row `createMany` writes for a draft: the draft's fields, a fresh id,
    no schedule of its own, and the table's defaults (COMPLETED, created now).
   */
  function RowOf(d: Draft, id: TransactionId, now: int): Transaction {
    Transaction(id, d.kind, d.amount, Some(d.description), d.date, d.category, d.isRecurring,
                None, None, None, Completed, d.userId, d.accountId, now)
  }

  /** The rows inserted for `drafts`, with ids `base`, `base + 1`, ... */
  function InsertedRows(drafts: seq<Draft>, base: nat, now: int): (rows: map<TransactionId, Transaction>)
    ensures forall k: TransactionId | base <= k < base + |drafts| :: k in rows
    ensures forall k | k in rows :: base <= k < base + |drafts| && rows[k] == RowOf(drafts[k - base], k, now)
    decreases |drafts|
  {
    if |drafts| == 0 then map[]
    else
      var n := |drafts| - 1;
      var front := InsertedRows(drafts[..n], base, now);
      assert forall k | k in front :: drafts[..n][k - base] == drafts[k - base];
      front[base + n := RowOf(drafts[n], base + n, now)]
  }

  /** The last draft's row is added to the rows of the drafts before it, under a fresh id. */
  lemma InsertedRowsLast(front: seq<Draft>, last: Draft, base: nat, now: int)
    ensures base + |front| !in InsertedRows(front, base, now)
    ensures InsertedRows(front + [last], base, now)
         == InsertedRows(front, base, now)[base + |front| := RowOf(last, base + |front|, now)]
  {
    var drafts := front + [last];
    assert drafts[..|front|] == front;
    assert drafts[|front|] == last;
  }

  /** Adding a row under a new id adds its signed amount to the table's sum. */
  lemma RowSumInsert(whole: map<TransactionId, Transaction>, front: map<TransactionId, Transaction>,
                     k: TransactionId, row: Transaction)
    requires k !in front && whole == front[k := row]
    ensures MapSum(whole, SignedAmount) == MapSum(front, SignedAmount) + SignedAmount(row)
  {
    MapSumInsert(front, SignedAmount, k, row, whole);
  }

  /** The signed amounts of the rows of all drafts: those of the earlier drafts plus the last one's. */
  lemma RowSumLast(front: seq<Draft>, last: Draft, base: nat, now: int)
    ensures MapSum(InsertedRows(front + [last], base, now), SignedAmount)
         == MapSum(InsertedRows(front, base, now), SignedAmount) + SignedAmount(RowOf(last, base + |front|, now))
  {
    InsertedRowsLast(front, last, base, now);
    RowSumInsert(InsertedRows(front + [last], base, now), InsertedRows(front, base, now),
                 base + |front|, RowOf(last, base + |front|, now));
  }

  /**
    Balance conservation: the reduce over the drafts equals the sum of the
    signed amounts of the rows inserted for them.
   */
  lemma {:induction false} TotalAmountIsRowSum(drafts: seq<Draft>, base: nat, now: int)
    ensures TotalAmount(drafts) == MapSum(InsertedRows(drafts, base, now), SignedAmount)
    decreases |drafts|
  {
    if |drafts| > 0 {
      var n := |drafts| - 1;
      var front, last := drafts[..n], drafts[n];
      assert drafts == front + [last];
      assert TotalAmount(drafts) == TotalAmount(front) + SignedAmount(RowOf(last, base + n, now));
      TotalAmountIsRowSum(front, base, now);
      RowSumLast(front, last, base, now);
    }
  }

  /** The template after the commit: processed now, next occurrence at the loop's final date. */
  function Stamped(template: Transaction, now: int, next: int): Transaction {
    template.(lastProcessed := Some(now), nextRecurringDate := Some(next))
  }

  /** A stamped template is no longer due at the same `now`, nor selected by the scan. */
  lemma StampedNotDue(template: Transaction, now: int)
    requires CatchUp(template, now).Ok?
    ensures !IsTransactionDue(Stamped(template, now, CatchUp(template, now).value.next), now)
    ensures !SelectedForProcessing(Stamped(template, now, CatchUp(template, now).value.next), now)
  {
  }

  datatype ProcessOutcome =
    | MissingEventData        // returned { error: "Missing required event data" }
    | Skipped                 // template missing, owned by someone else, or not due
    | Processed(created: nat) // the commit went through
    | Aborted(msg: string)    // the atomic commit threw and rolled back

  /**
    The catch-up loop of `processRecurringTransaction`: walk from the start
    date one interval at a time while not after `now`, pushing a draft for each
    date on an earlier day than today; the step throws on an unknown interval.
   */
  method ReplayDrafts(template: Transaction, now: int) returns (replay: Result<Replay>, drafts: seq<Draft>)
    ensures replay == CatchUp(template, now)
    ensures replay.Ok? ==> drafts == DraftsFor(template, replay.value.dates)
  {
    ghost var iv := IntervalFor(template.recurringInterval);
    ghost var step := StepOf(if iv.Some? then iv.value else Daily);
    IntervalStepsMoveOn(if iv.Some? then iv.value else Daily);
    var start := StartDate(template);
    var nextDate := start;
    drafts := [];
    var dates: seq<int> := [];
    while nextDate <= now
      invariant start <= nextDate
      invariant iv.None? ==> nextDate == start && dates == []
      invariant Occurrences(start, now, step).dates == dates + Occurrences(nextDate, now, step).dates
      invariant Occurrences(start, now, step).next == Occurrences(nextDate, now, step).next
      invariant drafts == DraftsFor(template, dates)
      decreases now - nextDate
    {
      ReplayStep(start, nextDate, now, step, dates);
      if DayOf(nextDate) < DayOf(now) {
        DraftsForAppend(template, dates, nextDate);
        drafts := drafts + [DraftFor(template, nextDate)];
        dates := dates + [nextDate];
      }
      var next := NextRecurringDate(nextDate, template.recurringInterval);
      if next.Err? {
        return Err(next.msg), drafts;
      }
      assert next.value == step(nextDate);
      nextDate := next.value;
    }
    ReplayDone(template, now, step, dates, nextDate);
    replay := Ok(Replay(dates, nextDate));
  }

  /** One turn of the loop keeps the dates seen so far and the dates still to come adding up to the whole replay. */
  lemma ReplayStep(start: int, d: int, now: int, step: int -> int, dates: seq<int>)
    requires MovesToLaterDay(step)
    requires d <= now
    requires Occurrences(start, now, step).dates == dates + Occurrences(d, now, step).dates
    requires Occurrences(start, now, step).next == Occurrences(d, now, step).next
    ensures var seen := if DayOf(d) < DayOf(now) then dates + [d] else dates;
      && Occurrences(start, now, step).dates == seen + Occurrences(step(d), now, step).dates
      && Occurrences(start, now, step).next == Occurrences(step(d), now, step).next
  {
    OccurrencesUnfold(d, now, step);
    var rest := Occurrences(step(d), now, step);
    assert dates + ([d] + rest.dates) == (dates + [d]) + rest.dates;
  }

  /** When the loop leaves with the date past `now`, what it saw is the whole catch-up. */
  lemma ReplayDone(template: Transaction, now: int, step: int -> int, dates: seq<int>, nextDate: int)
    requires var iv := IntervalFor(template.recurringInterval); step == StepOf(if iv.Some? then iv.value else Daily)
    requires MovesToLaterDay(step)
    requires nextDate > now
    requires IntervalFor(template.recurringInterval).None? ==> nextDate == StartDate(template) && dates == []
    requires Occurrences(StartDate(template), now, step).dates == dates + Occurrences(nextDate, now, step).dates
    requires Occurrences(StartDate(template), now, step).next == Occurrences(nextDate, now, step).next
    ensures CatchUp(template, now) == Ok(Replay(dates, nextDate))
  {
    var start := StartDate(template);
    assert Occurrences(nextDate, now, step) == Replay([], nextDate);
    assert dates + [] == dates;
    if start > now {
      assert Occurrences(start, now, step) == Replay([], start);
    }
  }

  /** The template an event names, when it exists, belongs to the event's user and is due. */
  function DueTemplate(transactions: map<TransactionId, Transaction>, event: Event, now: int): Option<Transaction> {
    if event.transactionId.None? || event.userId.None? then None
    else
      var id := event.transactionId.value;
      if id in transactions && transactions[id].userId == event.userId.value
         && IsTransactionDue(transactions[id], now)
      then Some(transactions[id])
      else None
  }

  /**
    The atomic commit: insert one row per draft, add the drafts' total to the
    template's account when there are drafts (the update throws, rolling
    everything back, if that account is gone) and stamp the template.
   */
  method Commit(store: Ledger, id: TransactionId, replay: Replay, drafts: seq<Draft>, now: int)
    returns (outcome: ProcessOutcome)
    requires store.Valid() && id in store.transactions
    requires drafts == DraftsFor(store.transactions[id], replay.dates)
    modifies store
    ensures store.Valid()
    ensures store.users == old(store.users) && store.budgets == old(store.budgets)
    ensures var template := old(store.transactions[id]);
      if |drafts| > 0 && template.accountId !in old(store.accounts) then
        outcome == Aborted(RecordNotFound) && unchanged(store)
      else
        && outcome == Processed(|drafts|)
        && store.nextId == old(store.nextId) + |drafts|
        && store.transactions ==
             old(store.transactions)[id := Stamped(template, now, replay.next)]
             + InsertedRows(drafts, old(store.nextId), now)
        && store.accounts ==
             if |drafts| == 0 then old(store.accounts)
             else old(store.accounts)[template.accountId :=
                    old(store.accounts[template.accountId]).(balance :=
                      old(store.accounts[template.accountId]).balance + TotalAmount(drafts))]
  {
    var template := store.transactions[id];
    if |drafts| > 0 && template.accountId !in store.accounts {
      return Aborted(RecordNotFound);
    }
    var base := store.nextId;
    var rows := InsertedRows(drafts, base, now);
    store.transactions := store.transactions[id := Stamped(template, now, replay.next)] + rows;
    store.nextId := base + |drafts|;
    if |drafts| > 0 {
      var account := store.accounts[template.accountId];
      store.accounts := store.accounts[template.accountId := account.(balance := account.balance + TotalAmount(drafts))];
    }
    outcome := Processed(|drafts|);
  }

  /**
    What one run of `processRecurringTransaction` for `event` at `now` does to
    the accounts, transactions and id counter (`accounts`, `transactions`,
    `nextId` before; `accounts'`, `transactions'`, `nextId'` after), and the
    outcome it reports.  Every early return and every thrown error leaves the
    three as they were.
   */
  ghost predicate RunEffect(accounts: map<AccountId, Account>, transactions: map<TransactionId, Transaction>, nextId: nat,
                            event: Event, now: int, outcome: ProcessOutcome,
                            accounts': map<AccountId, Account>, transactions': map<TransactionId, Transaction>, nextId': nat)
  {
    var same := accounts' == accounts && transactions' == transactions && nextId' == nextId;
    if event.transactionId.None? || event.userId.None? then outcome == MissingEventData && same
    else match DueTemplate(transactions, event, now)
      case None => outcome == Skipped && same
      case Some(template) =>
        match CatchUp(template, now)
        case Err(msg) => outcome == Aborted(msg) && same
        case Ok(replay) =>
          var drafts := DraftsFor(template, replay.dates);
          if |drafts| > 0 && template.accountId !in accounts then
            outcome == Aborted(RecordNotFound) && same
          else
            && outcome == Processed(|drafts|)
            && nextId' == nextId + |drafts|
            && transactions' ==
                 transactions[event.transactionId.value := Stamped(template, now, replay.next)]
                 + InsertedRows(drafts, nextId, now)
            && accounts' ==
                 if |drafts| == 0 then accounts
                 else accounts[template.accountId :=
                        accounts[template.accountId].(balance := accounts[template.accountId].balance + TotalAmount(drafts))]
  }

  /**
    `processRecurringTransaction`: look the template up by id AND owner, skip it
    unless due, replay the missed occurrences, then commit atomically.  A thrown
    error leaves the store as it was.
   */
  method ProcessRecurringTransaction(store: Ledger, event: Event, now: int) returns (outcome: ProcessOutcome)
    requires store.Valid()
    modifies store
    ensures store.Valid()
    ensures store.users == old(store.users) && store.budgets == old(store.budgets)
    ensures RunEffect(old(store.accounts), old(store.transactions), old(store.nextId), event, now, outcome,
                      store.accounts, store.transactions, store.nextId)
  {
    if event.transactionId.None? || event.userId.None? {
      return MissingEventData;
    }
    var found := DueTemplate(store.transactions, event, now);
    if found.None? {
      return Skipped;
    }
    var replay, drafts := ReplayDrafts(found.value, now);
    if replay.Err? {
      return Aborted(replay.msg);
    }
    outcome := Commit(store, event.transactionId.value, replay.value, drafts, now);
  }

  /**
    Running the job twice for the same event at the same `now`: the second run
    changes nothing.  After a processed first run it is skipped (the template
    was stamped past `now`); otherwise it ends as the first did.
   */
  method ProcessTwice(store: Ledger, event: Event, now: int) returns (first: ProcessOutcome, second: ProcessOutcome)
    requires store.Valid()
    modifies store
    ensures store.Valid()
    ensures store.users == old(store.users) && store.budgets == old(store.budgets)
    ensures RunEffect(old(store.accounts), old(store.transactions), old(store.nextId), event, now, first,
                      store.accounts, store.transactions, store.nextId)
    ensures first.Processed? ==> second == Skipped
    ensures !first.Processed? ==> second == first
  {
    first := ProcessRecurringTransaction(store, event, now);
    ghost var accounts1, transactions1, nextId1 := store.accounts, store.transactions, store.nextId;
    if first.Processed? {
      var template := DueTemplate(old(store.transactions), event, now).value;
      StampedNotDue(template, now);
      var id := event.transactionId.value;
      var drafts := DraftsFor(template, CatchUp(template, now).value.dates);
      assert store.transactions[id] == Stamped(template, now, CatchUp(template, now).value.next) by {
        assert id !in InsertedRows(drafts, old(store.nextId), now);
      }
    }
    second := ProcessRecurringTransaction(store, event, now);
    assert store.accounts == accounts1 && store.transactions == transactions1 && store.nextId == nextId1;
  }
}
