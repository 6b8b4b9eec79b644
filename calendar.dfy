/**
  A single fixed (UTC, proleptic Gregorian) calendar over integer timestamps.

  A timestamp is a whole number of seconds since 1970-01-01T00:00:00Z; its
  calendar day is `t / 86400` (Dafny's division floors for a positive divisor)
  and its time of day is `t % 86400`.  A civil date is (year, month, day) with
  a 0-based month, as JavaScript's `getMonth` returns it, and a 1-based day.

  `MakeDay` is the normalising constructor: like JavaScript's `new Date(y, m, d)`
  and `setMonth`/`setFullYear` it accepts any month and any day and lets an
  overflow roll into the following months (`MakeDay(y, 1, 31)` is March 3 or 2).
  `ToCivil` is its inverse on valid civil dates.
 */
module Calendar {

  const SecondsPerDay: int := 86400

  /** Calendar day (days since 1970-01-01) of a timestamp. */
  function DayOf(t: int): int {
    t / SecondsPerDay
  }

  /** Seconds elapsed since midnight of the timestamp's calendar day. */
  function TimeInDay(t: int): (s: int)
    ensures 0 <= s < SecondsPerDay
    ensures t == DayOf(t) * SecondsPerDay + s
  {
    t % SecondsPerDay
  }

  /** The timestamp at `secs` seconds into calendar day `day`. */
  function AtTime(day: int, secs: int): int {
    day * SecondsPerDay + secs
  }

  lemma DayOfAtTime(day: int, secs: int)
    requires 0 <= secs < SecondsPerDay
    ensures DayOf(AtTime(day, secs)) == day
    ensures TimeInDay(AtTime(day, secs)) == secs
  {
  }

  predicate IsLeap(y: int) {
    y % 4 == 0 && (y % 100 != 0 || y % 400 == 0)
  }

  function DaysInYear(y: int): int {
    if IsLeap(y) then 366 else 365
  }

  function DaysInMonth(y: int, m: int): (n: int)
    requires 0 <= m < 12
    ensures 28 <= n <= 31
  {
    if m == 1 then (if IsLeap(y) then 29 else 28)
    else if m == 3 || m == 5 || m == 8 || m == 10 then 30
    else 31
  }

  /** Days of year `y` before the first of month `m` (`m == 12` gives the year's length). */
  function DaysBeforeMonth(y: int, m: int): int
    requires 0 <= m <= 12
  {
    var table := [0, 31, 59, 90, 120, 151, 181, 212, 243, 273, 304, 334, 365];
    table[m] + (if m >= 2 && IsLeap(y) then 1 else 0)
  }

  lemma DaysBeforeNextMonth(y: int, m: int)
    requires 0 <= m < 12
    ensures DaysBeforeMonth(y, m + 1) == DaysBeforeMonth(y, m) + DaysInMonth(y, m)
    ensures DaysBeforeMonth(y, 12) == DaysInYear(y)
  {
  }

  /**
    Calendar day of January 1 of year `y` (ECMAScript's DayFromYear), counted
    year by year from 1970: forwards for later years, backwards for earlier ones.
   */
  function DayFromYear(y: int): int
    decreases if y < 1970 then 1970 - y else y - 1970
  {
    if y == 1970 then 0
    else if y > 1970 then DayFromYear(y - 1) + DaysInYear(y - 1)
    else DayFromYear(y + 1) - DaysInYear(y)
  }

  lemma DayFromYearStep(y: int)
    ensures DayFromYear(y + 1) == DayFromYear(y) + DaysInYear(y)
  {
  }

  /** January 1 of later years falls on later days. */
  lemma {:induction false} DayFromYearIncreasing(a: int, b: int)
    requires a < b
    ensures DayFromYear(a) + 365 <= DayFromYear(b)
    decreases b - a
  {
    DayFromYearStep(a);
    if a + 1 < b {
      DayFromYearIncreasing(a + 1, b);
    }
  }

  /** The year whose days contain calendar day `n`, searching upwards from `y`. */
  function YearUp(n: int, y: int): (r: int)
    requires DayFromYear(y) <= n
    ensures DayFromYear(r) <= n < DayFromYear(r + 1)
    decreases n - DayFromYear(y)
  {
    DayFromYearStep(y);
    if n < DayFromYear(y + 1) then y else YearUp(n, y + 1)
  }

  /** The year whose days contain calendar day `n`, searching downwards from `y`. */
  function YearDown(n: int, y: int): (r: int)
    requires n < DayFromYear(y + 1)
    ensures DayFromYear(r) <= n < DayFromYear(r + 1)
    decreases DayFromYear(y + 1) - n
  {
    DayFromYearStep(y - 1);
    if DayFromYear(y) <= n then y else YearDown(n, y - 1)
  }

  function YearOf(n: int): (r: int)
    ensures DayFromYear(r) <= n < DayFromYear(r + 1)
  {
    if 0 <= n then YearUp(n, 1970) else YearDown(n, 1969)
  }

  lemma YearOfUnique(n: int, y: int)
    requires DayFromYear(y) <= n < DayFromYear(y + 1)
    ensures YearOf(n) == y
  {
    var r := YearOf(n);
    if r < y {
      DayFromYearIncreasing(r + 1, y + 1);
      if r + 1 < y { DayFromYearIncreasing(r + 1, y); }
    } else if y < r {
      if y + 1 < r { DayFromYearIncreasing(y + 1, r); }
    }
  }

  /** The month of year `y` holding day-of-year `k`, searching downwards from `m`. */
  function MonthFrom(y: int, k: int, m: int): (r: int)
    requires 0 <= m < 12
    requires 0 <= k < DaysBeforeMonth(y, m + 1)
    ensures 0 <= r <= m
    ensures DaysBeforeMonth(y, r) <= k < DaysBeforeMonth(y, r + 1)
    decreases m
  {
    if DaysBeforeMonth(y, m) <= k then m else MonthFrom(y, k, m - 1)
  }

  datatype Civil = Civil(year: int, month: int, day: int) {
    /** A date as a calendar shows it: a month in 0..11 and a day that exists in it. */
    predicate Valid() {
      0 <= month < 12 && 1 <= day <= DaysInMonth(year, month)
    }
  }

  /**
    The normalising constructor: the calendar day of (y, m, d) for ANY month and
    day, overflow rolling into later months and underflow into earlier ones,
    as ECMAScript's MakeDay does.
   */
  function MakeDay(y: int, m: int, d: int): int
    decreases if m < 0 then 12 - m else m
  {
    if m < 0 then MakeDay(y - 1, m + 12, d)
    else if m >= 12 then MakeDay(y + 1, m - 12, d)
    else DayFromYear(y) + DaysBeforeMonth(y, m) + d - 1
  }

  function FromCivil(c: Civil): int {
    MakeDay(c.year, c.month, c.day)
  }

  lemma MakeDayInYear(y: int, m: int, d: int)
    requires 0 <= m < 12
    ensures MakeDay(y, m, d) == DayFromYear(y) + DaysBeforeMonth(y, m) + d - 1
  {
  }

  /**
    The civil date of calendar day `n`: the one valid date that names it.  It
    exists (`SearchCivil` finds it) and it is unique (`FromCivilInjective`).
   */
  function ToCivil(n: int): (c: Civil)
    ensures c.Valid()
    ensures FromCivil(c) == n
  {
    assert SearchCivil(n).Valid() && FromCivil(SearchCivil(n)) == n;
    FromCivilUnique();
    var c: Civil :| c.Valid() && FromCivil(c) == n; c
  }

  /** The year search, then the month search within that year: a valid date that names day `n`. */
  function SearchCivil(n: int): (c: Civil)
    ensures c.Valid() && FromCivil(c) == n
  {
    var y := YearOf(n);
    DayFromYearStep(y);
    var c := DateInYear(y, n - DayFromYear(y));
    MakeDayInYear(y, c.month, c.day);
    c
  }

  /** The civil date of day-of-year `k` (0-based) of year `y`. */
  function DateInYear(y: int, k: int): (c: Civil)
    requires 0 <= k < DaysInYear(y)
    ensures c.Valid() && c.year == y
    ensures DaysBeforeMonth(y, c.month) + c.day - 1 == k
  {
    DaysBeforeNextMonth(y, 11);
    var m := MonthFrom(y, k, 11);
    DaysBeforeNextMonth(y, m);
    Civil(y, m, k - DaysBeforeMonth(y, m) + 1)
  }

  /** The civil date of a calendar day names that same day again. */
  lemma ToCivilInverse(n: int)
    ensures FromCivil(ToCivil(n)) == n
  {
  }

  /** The month search finds the one month whose days hold day-of-year `k`. */
  lemma {:induction false} MonthFromFinds(y: int, k: int, m: int, j: int)
    requires 0 <= m <= j < 12
    requires DaysBeforeMonth(y, m) <= k < DaysBeforeMonth(y, m + 1)
    ensures MonthFrom(y, k, j) == m
    decreases j
  {
    DaysBeforeMonthMonotone(y, m + 1, j + 1);
    if j > m {
      DaysBeforeMonthMonotone(y, m + 1, j);
      MonthFromFinds(y, k, m, j - 1);
    }
  }

  /** The year and month searches recover the year and month of a valid date from its day. */
  lemma SearchFindsParts(c: Civil)
    requires c.Valid()
    ensures YearOf(FromCivil(c)) == c.year
    ensures MonthFrom(c.year, FromCivil(c) - DayFromYear(c.year), 11) == c.month
  {
    var n := FromCivil(c);
    MakeDayInYear(c.year, c.month, c.day);
    DaysBeforeNextMonth(c.year, c.month);
    DaysBeforeNextMonth(c.year, 11);
    DaysBeforeMonthMonotone(c.year, c.month + 1, 12);
    DayFromYearStep(c.year);
    YearOfUnique(n, c.year);
    MonthFromFinds(c.year, n - DayFromYear(c.year), c.month, 11);
  }

  /** Two valid dates that name the same day are the same date. */
  lemma FromCivilInjective(a: Civil, b: Civil)
    requires a.Valid() && b.Valid()
    requires FromCivil(a) == FromCivil(b)
    ensures a == b
  {
    SearchFindsParts(a);
    SearchFindsParts(b);
    assert a.year == b.year && a.month == b.month;
    MakeDayInYear(a.year, a.month, a.day);
    MakeDayInYear(b.year, b.month, b.day);
  }

  lemma FromCivilUnique()
    ensures forall a: Civil, b: Civil | a.Valid() && b.Valid() && FromCivil(a) == FromCivil(b) :: a == b
  {
    forall a: Civil, b: Civil | a.Valid() && b.Valid() && FromCivil(a) == FromCivil(b) ensures a == b {
      FromCivilInjective(a, b);
    }
  }

  /** Every valid civil date is recovered from its calendar day. */
  lemma ToCivilMakeDay(y: int, m: int, d: int)
    requires Civil(y, m, d).Valid()
    ensures ToCivil(MakeDay(y, m, d)) == Civil(y, m, d)
  {
    FromCivilInjective(ToCivil(MakeDay(y, m, d)), Civil(y, m, d));
  }

  lemma DaysBeforeMonthMonotone(y: int, a: int, b: int)
    requires 0 <= a <= b <= 12
    ensures DaysBeforeMonth(y, a) <= DaysBeforeMonth(y, b)
  {
  }

  /** The month after month `m` of year `y`, as (year, month). */
  function NextMonth(y: int, m: int): (int, int) {
    if m == 11 then (y + 1, 0) else (y, m + 1)
  }

  /** Asking for month `m + 1` lands in the month after `m`, `DaysInMonth(y, m)` days later. */
  lemma MakeDayNextMonth(y: int, m: int, d: int)
    requires 0 <= m < 12
    ensures MakeDay(y, m + 1, d) == MakeDay(y, m, d) + DaysInMonth(y, m)
    ensures MakeDay(y, m + 1, d) == MakeDay(NextMonth(y, m).0, NextMonth(y, m).1, d)
  {
    MakeDayInYear(y, m, d);
    DaysBeforeNextMonth(y, m);
    if m == 11 {
      DayFromYearStep(y);
      MakeDayInYear(y + 1, 0, d);
    } else {
      MakeDayInYear(y, m + 1, d);
    }
  }

  /** Asking for year `y + 1` on the same month and day lands one year's worth of days later. */
  lemma MakeDayNextYear(y: int, m: int, d: int)
    requires 0 <= m < 12
    ensures MakeDay(y + 1, m, d) == MakeDay(y, m, d) + DaysInYear(y)
                                    + DaysBeforeMonth(y + 1, m) - DaysBeforeMonth(y, m)
    ensures MakeDay(y + 1, m, d) >= MakeDay(y, m, d) + 365
  {
    MakeDayInYear(y, m, d);
    MakeDayInYear(y + 1, m, d);
    DayFromYearStep(y);
  }

  /** The civil date of a timestamp. */
  function CivilOf(t: int): (c: Civil)
    ensures c.Valid()
  {
    ToCivil(DayOf(t))
  }

  /** Midnight of the first day of month `m` of year `y` (any `m`, normalised). */
  function StartOfMonth(y: int, m: int): int {
    AtTime(MakeDay(y, m, 1), 0)
  }

  /** The calendar month `m` of year `y`: from its first midnight up to, not including, the next month's. */
  predicate InMonthWindow(t: int, y: int, m: int) {
    StartOfMonth(y, m) <= t < StartOfMonth(y, m + 1)
  }

  /** A timestamp is in the window of a month exactly when its civil date is in that month. */
  lemma MonthWindowExact(t: int, y: int, m: int)
    requires 0 <= m < 12
    ensures InMonthWindow(t, y, m) <==> CivilOf(t).year == y && CivilOf(t).month == m
  {
    if InMonthWindow(t, y, m) {
      WindowToMonth(t, y, m);
    }
    if CivilOf(t).year == y && CivilOf(t).month == m {
      MonthToWindow(t, y, m);
    }
  }

  lemma WindowToMonth(t: int, y: int, m: int)
    requires 0 <= m < 12
    requires InMonthWindow(t, y, m)
    ensures CivilOf(t).year == y && CivilOf(t).month == m
  {
    var first := MakeDay(y, m, 1);
    MakeDayNextMonth(y, m, 1);
    DayStartBounds(t, first, first + DaysInMonth(y, m));
    var d := DayOf(t) - first + 1;
    MakeDayInYear(y, m, 1);
    MakeDayInYear(y, m, d);
    ToCivilMakeDay(y, m, d);
  }

  lemma MonthToWindow(t: int, y: int, m: int)
    requires 0 <= m < 12
    requires CivilOf(t).year == y && CivilOf(t).month == m
    ensures InMonthWindow(t, y, m)
  {
    var first := MakeDay(y, m, 1);
    MakeDayNextMonth(y, m, 1);
    DayStartBounds(t, first, first + DaysInMonth(y, m));
    ToCivilInverse(DayOf(t));
    MakeDayInYear(y, m, 1);
    MakeDayInYear(y, m, CivilOf(t).day);
  }

  /** Day `d + 1` of any (normalised) month is the day after day `d`. */
  lemma {:induction false} MakeDayNextDay(y: int, m: int, d: int)
    ensures MakeDay(y, m, d + 1) == MakeDay(y, m, d) + 1
    decreases if m < 0 then 12 - m else m
  {
    if m < 0 {
      MakeDayNextDay(y - 1, m + 12, d);
    } else if m >= 12 {
      MakeDayNextDay(y + 1, m - 12, d);
    }
  }

  /**
    The month window as the queries write it: `gte` the first of the month,
    `lte` day 0 of the next month, which is the LAST day of the month at
    midnight rather than its end.
   */
  predicate InMonthWindowAsWritten(t: int, y: int, m: int) {
    StartOfMonth(y, m) <= t <= AtTime(MakeDay(y, m + 1, 0), 0)
  }

  /**
    The window as written is the month's window without the last day after
    its first second: everything else of the month is in, nothing outside it is.
   */
  lemma MonthWindowAsWrittenGap(t: int, y: int, m: int)
    requires 0 <= m < 12
    ensures InMonthWindowAsWritten(t, y, m) <==>
      InMonthWindow(t, y, m) && !(DayOf(t) == MakeDay(y, m + 1, 0) && TimeInDay(t) > 0)
  {
    MakeDayNextDay(y, m + 1, 0);
    MakeDayNextMonth(y, m, 1);
    var s := TimeInDay(t);
    assert t == DayOf(t) * SecondsPerDay + s;
  }

  /**
    In civil terms: the window as written holds the instants of the month
    except those on its last day after midnight.
   */
  lemma MonthWindowAsWrittenCivil(t: int, y: int, m: int)
    requires 0 <= m < 12
    ensures InMonthWindowAsWritten(t, y, m) <==>
      && CivilOf(t).year == y && CivilOf(t).month == m
      && !(CivilOf(t).day == DaysInMonth(y, m) && TimeInDay(t) > 0)
  {
    MonthWindowAsWrittenGap(t, y, m);
    MonthWindowExact(t, y, m);
    MakeDayNextDay(y, m + 1, 0);
    MakeDayNextMonth(y, m, 1);
    if CivilOf(t).year == y && CivilOf(t).month == m {
      ToCivilInverse(DayOf(t));
      MakeDayInYear(y, m, 1);
      MakeDayInYear(y, m, CivilOf(t).day);
    }
  }

  /** One second after midnight on the month's last day lies in the month but outside the window as written. */
  lemma LastDayAfterMidnightMissed(y: int, m: int)
    requires 0 <= m < 12
    ensures var t := AtTime(MakeDay(y, m + 1, 0), 1);
      && CivilOf(t).year == y && CivilOf(t).month == m
      && InMonthWindow(t, y, m)
      && !InMonthWindowAsWritten(t, y, m)
  {
    var t := AtTime(MakeDay(y, m + 1, 0), 1);
    DayOfAtTime(MakeDay(y, m + 1, 0), 1);
    MonthWindowAsWrittenGap(t, y, m);
    MakeDayNextDay(y, m + 1, 0);
    MakeDayNextMonth(y, m, 1);
    MonthWindowExact(t, y, m);
  }

  /** Comparing a timestamp with midnights is comparing its calendar day with their days. */
  lemma DayStartBounds(t: int, lo: int, hi: int)
    ensures AtTime(lo, 0) <= t <==> lo <= DayOf(t)
    ensures t < AtTime(hi, 0) <==> DayOf(t) < hi
  {
    var s := TimeInDay(t);
    assert t == DayOf(t) * SecondsPerDay + s;
  }
}
