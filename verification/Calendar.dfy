/**
 Civil dates and the date arithmetic of the resolver. Months are counted through the years
 (month 12*y + m - 1), and out-of-range days are normalised as Go's time.Date documents it.
 */
module Calendar {
  import opened Wrappers

  predicate IsLeap(year: int) {
    year % 4 == 0 && (year % 100 != 0 || year % 400 == 0)
  }

  /** The days of a month of the running count. */
  function DaysIn(month: int): (days: nat)
    ensures 28 <= days <= 31
  {
    var m := month % 12;
    if m == 1 then (if IsLeap(month / 12) then 29 else 28)
    else if m == 3 || m == 5 || m == 8 || m == 10 then 30
    else 31
  }

  datatype Date = Date(month: int, day: int)
  {
    predicate Valid() {
      1 <= day <= DaysIn(month)
    }
    function Year(): int {
      month / 12
    }
    /** January is 1. */
    function MonthOfYear(): int {
      month % 12 + 1
    }
  }

  function MonthCount(year: int, monthOfYear: int): int {
    12 * year + monthOfYear - 1
  }

  /** The calendar order. */
  predicate Before(a: Date, b: Date) {
    a.month < b.month || (a.month == b.month && a.day < b.day)
  }

  // ---------- Day numbers ----------

  /** Days before a year, counted so that 1 January of year 1 is day 1. */
  function DaysBeforeYear(year: int): int {
    365 * (year - 1) + (year - 1) / 4 - (year - 1) / 100 + (year - 1) / 400
  }

  /** Days of a year before its month `m` (January is 0), in a common year. */
  function DaysBeforeMonth(m: int): int {
    if m == 0 then 0 else if m == 1 then 31 else if m == 2 then 59 else if m == 3 then 90
    else if m == 4 then 120 else if m == 5 then 151 else if m == 6 then 181 else if m == 7 then 212
    else if m == 8 then 243 else if m == 9 then 273 else if m == 10 then 304 else 334
  }

  function DaysBefore(month: int): int {
    var y, m := month / 12, month % 12;
    DaysBeforeYear(y) + DaysBeforeMonth(m) + if m >= 2 && IsLeap(y) then 1 else 0
  }

  function DayNumber(d: Date): int {
    DaysBefore(d.month) + d.day
  }

  /** Sunday is 0; 1 January of year 1 was a Monday. */
  function Weekday(d: Date): int {
    DayNumber(d) % 7
  }

  function On(year: int, monthOfYear: int, day: int): Date {
    Date(MonthCount(year, monthOfYear), day)
  }

  lemma DayNumberOf(year: int, monthOfYear: int, day: int)
    requires 1 <= monthOfYear <= 12
    ensures DayNumber(On(year, monthOfYear, day)) ==
            DaysBeforeYear(year) + DaysBeforeMonth(monthOfYear - 1) + (if monthOfYear > 2 && IsLeap(year) then 1 else 0) + day
  {
    MonthCountSplits(year, monthOfYear);
  }

  /** Known dates: 1 January 2000 was a Saturday, 29 February 2024 a Thursday, 13 July 1582 a Tuesday by this calendar. */
  lemma KnownWeekdays()
    ensures Weekday(On(2000, 1, 1)) == 6 && Weekday(On(2024, 2, 29)) == 4 && Weekday(On(1582, 7, 13)) == 2
  {
    hide DayNumber, DaysBeforeYear;
    DayNumberOf(2000, 1, 1);
    DayNumberOf(2024, 2, 29);
    DayNumberOf(1582, 7, 13);
    YearsBefore();
  }

  lemma MonthsBefore()
    ensures DaysBeforeMonth(0) == 0 && DaysBeforeMonth(1) == 31 && DaysBeforeMonth(2) == 59 && DaysBeforeMonth(3) == 90
    ensures DaysBeforeMonth(4) == 120 && DaysBeforeMonth(5) == 151 && DaysBeforeMonth(6) == 181 && DaysBeforeMonth(7) == 212
    ensures DaysBeforeMonth(8) == 243 && DaysBeforeMonth(9) == 273 && DaysBeforeMonth(10) == 304 && DaysBeforeMonth(11) == 334
  {
  }

  lemma YearsBefore()
    ensures DaysBeforeYear(1582) == 577448 && DaysBeforeYear(2000) == 730119
    ensures DaysBeforeYear(2023) == 738520 && DaysBeforeYear(2024) == 738885
  {
  }

  /** A 29 February is in the years divisible by 4, but of the full centuries only in those divisible by 400. */
  lemma LeapDays(year: int)
    ensures On(year, 2, 29).Valid() <==> year % 4 == 0 && (year % 100 == 0 ==> year % 400 == 0)
  {
    MonthCountSplits(year, 2);
  }

  /** The weekdays on which the months of 2023 began, and so their lengths. */
  lemma MonthsOf2023()
    ensures Weekday(On(2023, 1, 1)) == 0 && Weekday(On(2023, 2, 1)) == 3 && Weekday(On(2023, 3, 1)) == 3
    ensures Weekday(On(2023, 4, 1)) == 6 && Weekday(On(2023, 5, 1)) == 1 && Weekday(On(2023, 6, 1)) == 4
    ensures Weekday(On(2023, 7, 1)) == 6 && Weekday(On(2023, 8, 1)) == 2 && Weekday(On(2023, 9, 1)) == 5
    ensures Weekday(On(2023, 10, 1)) == 0 && Weekday(On(2023, 11, 1)) == 3 && Weekday(On(2023, 12, 1)) == 5
  {
    hide DayNumber, DaysBeforeYear, DaysBeforeMonth, On;
    YearsBefore();
    MonthsBefore();
    DayNumberOf(2023, 1, 1);
    DayNumberOf(2023, 2, 1);
    DayNumberOf(2023, 3, 1);
    DayNumberOf(2023, 4, 1);
    DayNumberOf(2023, 5, 1);
    DayNumberOf(2023, 6, 1);
    DayNumberOf(2023, 7, 1);
    DayNumberOf(2023, 8, 1);
    DayNumberOf(2023, 9, 1);
    DayNumberOf(2023, 10, 1);
    DayNumberOf(2023, 11, 1);
    DayNumberOf(2023, 12, 1);
  }

  /** Each day is one weekday after the day before it. */
  lemma WeekdaysFollow(d: Date)
    requires d.Valid()
    ensures AddDays(d, 1).Valid() && Before(d, AddDays(d, 1)) && Weekday(AddDays(d, 1)) == (Weekday(d) + 1) % 7
    ensures forall e: Date :: e.Valid() && Before(d, e) ==> e == AddDays(d, 1) || Before(AddDays(d, 1), e)
  {
    hide DaysBefore;
    NormalizeKeepsDayNumber(d.month, d.day + 1);
    DayNumberOrders(d, AddDays(d, 1));
    forall e: Date | e.Valid() && Before(d, e) ensures e == AddDays(d, 1) || Before(AddDays(d, 1), e) {
      DayNumberOrders(d, e);
      DayNumberOrders(AddDays(d, 1), e);
    }
  }

  lemma YearLength(year: int)
    ensures DaysBeforeYear(year + 1) == DaysBeforeYear(year) + if IsLeap(year) then 366 else 365
  {
    Quotient4(year);
    Quotient100(year);
    Quotient400(year);
    Multiples(year);
  }

  lemma Quotient4(n: int)
    ensures n / 4 == (n - 1) / 4 + if n % 4 == 0 then 1 else 0
  {
  }

  lemma Quotient100(n: int)
    ensures n / 100 == (n - 1) / 100 + if n % 100 == 0 then 1 else 0
  {
  }

  lemma Quotient400(n: int)
    ensures n / 400 == (n - 1) / 400 + if n % 400 == 0 then 1 else 0
  {
  }

  lemma Multiples(n: int)
    ensures n % 100 == 0 ==> n % 4 == 0
    ensures n % 400 == 0 ==> n % 100 == 0
  {
  }

  lemma MonthLength(month: int)
    ensures DaysBefore(month + 1) == DaysBefore(month) + DaysIn(month)
  {
    if month % 12 == 11 {
      YearLength(month / 12);
      assert (month + 1) / 12 == month / 12 + 1 && (month + 1) % 12 == 0;
    } else {
      assert (month + 1) / 12 == month / 12 && (month + 1) % 12 == month % 12 + 1;
    }
  }

  lemma {:induction false} MonthsGrow(month: int, later: int)
    requires month <= later
    ensures DaysBefore(month) <= DaysBefore(later)
    decreases later - month
  {
    if month < later {
      MonthsGrow(month, later - 1);
      MonthLength(later - 1);
    }
  }

  /** On valid dates, day numbers follow the calendar order. */
  lemma DayNumberOrders(a: Date, b: Date)
    requires a.Valid() && b.Valid()
    ensures Before(a, b) <==> DayNumber(a) < DayNumber(b)
    ensures a == b <==> DayNumber(a) == DayNumber(b)
  {
    if a.month < b.month {
      EarlierMonth(a, b);
    } else if b.month < a.month {
      EarlierMonth(b, a);
    }
  }

  lemma EarlierMonth(a: Date, b: Date)
    requires a.Valid() && b.Valid() && a.month < b.month
    ensures DayNumber(a) < DayNumber(b)
  {
    MonthLength(a.month);
    MonthsGrow(a.month + 1, b.month);
  }

  /**
   time.Date for a month of the running count and any day: excess days run into the following or
   preceding months.
   */
  function Normalize(month: int, day: int): (d: Date)
    ensures d.Valid()
    ensures 1 <= day <= DaysIn(month) ==> d == Date(month, day)
    decreases day < 1, Abs(day)
  {
    if day < 1 then Normalize(month - 1, day + DaysIn(month - 1))
    else if day > DaysIn(month) then Normalize(month + 1, day - DaysIn(month))
    else Date(month, day)
  }

  function Abs(n: int): nat {
    if n < 0 then -n else n
  }

  lemma {:induction false} NormalizeKeepsDayNumber(month: int, day: int)
    ensures DayNumber(Normalize(month, day)) == DaysBefore(month) + day
    decreases day < 1, Abs(day)
  {
    if day < 1 {
      MonthLength(month - 1);
      NormalizeKeepsDayNumber(month - 1, day + DaysIn(month - 1));
    } else if day > DaysIn(month) {
      MonthLength(month);
      NormalizeKeepsDayNumber(month + 1, day - DaysIn(month));
    }
  }

  /** Days 29 to 31 beyond the end of a month land in the first days of the next one. */
  lemma NormalizeOverflow(month: int, day: int)
    requires DaysIn(month) < day <= 31
    ensures Normalize(month, day) == Date(month + 1, day - DaysIn(month))
  {
  }

  function AddDays(d: Date, n: int): Date {
    Normalize(d.month, d.day + n)
  }

  function AddMonths(d: Date, n: int): Date {
    Normalize(d.month + n, d.day)
  }

  // ---------- nextWeekday ----------

  /** How many days ahead the next target weekday is: 1 to 7. */
  function DaysAhead(today: Date, target: int): int {
    var offset := (target - Weekday(today) + 7) % 7;
    if offset == 0 then 7 else offset
  }

  function NextWeekday(today: Date, target: int): Date {
    AddDays(today, DaysAhead(today, target))
  }

  /** The first date after today, today excluded, that falls on the target weekday. */
  lemma NextWeekdayIsEarliest(today: Date, target: int, d: Date)
    requires today.Valid() && 0 <= target <= 6
    ensures var next := NextWeekday(today, target);
            && next.Valid() && Before(today, next) && Weekday(next) == target
            && (d.Valid() && Before(today, d) && Weekday(d) == target ==> d == next || Before(next, d))
  {
    hide DaysBefore;
    var next, step := NextWeekday(today, target), DaysAhead(today, target);
    NormalizeKeepsDayNumber(today.month, today.day + step);
    DayNumberOrders(today, next);
    ModStep(DayNumber(today), step, target);
    if d.Valid() && Before(today, d) && Weekday(d) == target {
      DayNumberOrders(today, d);
      DayNumberOrders(next, d);
      SameWeekday(DayNumber(today), step, DayNumber(d) - DayNumber(today), target);
    }
  }

  lemma ModStep(n: int, step: int, target: int)
    requires 0 <= target <= 6 && 1 <= step <= 7 && step % 7 == (target - n % 7 + 7) % 7
    ensures (n + step) % 7 == target
  {
  }

  lemma SameWeekday(n: int, step: int, other: int, target: int)
    requires 0 <= target <= 6 && 1 <= step <= 7 && step % 7 == (target - n % 7 + 7) % 7
    requires other >= 1 && (n + other) % 7 == target
    ensures step <= other
  {
  }

  // ---------- resolveCalendarDate ----------

  /** normalizeYear: two-digit years count from 2000. */
  function FullYear(year: int): int {
    if year < 100 then 2000 + year else year
  }

  /** The value of resolveCalendarDate; `year` is None for an absent year. Month 1 is January. */
  function ResolveCalendarDate(day: int, monthOfYear: int, year: Option<int>, today: Date): Option<Date> {
    if day <= 0 || day > 31 || monthOfYear < 1 || monthOfYear > 12 then None
    else
      var month := MonthCount(if year.Some? then FullYear(year.value) else today.Year(), monthOfYear);
      var value := Normalize(month, day);
      if value.MonthOfYear() != monthOfYear || value.day != day then None
      else if year.None? && Before(value, today) then
        var next := Normalize(MonthCount(today.Year() + 1, monthOfYear), day);
        Some(if next.MonthOfYear() == monthOfYear && next.day == day then next else value)
      else Some(value)
  }

  predicate FallsOn(d: Date, day: int, monthOfYear: int) {
    d.Valid() && d.day == day && d.MonthOfYear() == monthOfYear
  }

  /** A perfect answer: the earliest date from today on with that day and month, or None if there is none. */
  ghost predicate IsEarliestFrom(today: Date, day: int, monthOfYear: int, answer: Option<Date>) {
    match answer
    case None => forall d: Date :: FallsOn(d, day, monthOfYear) ==> Before(d, today)
    case Some(a) =>
      && FallsOn(a, day, monthOfYear) && !Before(a, today)
      && forall d: Date :: FallsOn(d, day, monthOfYear) && Before(d, a) ==> Before(d, today)
  }

  lemma MonthCountSplits(year: int, monthOfYear: int)
    requires 1 <= monthOfYear <= 12
    ensures MonthCount(year, monthOfYear) / 12 == year && MonthCount(year, monthOfYear) % 12 == monthOfYear - 1
  {
  }

  /** Every date with a day and month is in that month of its year. */
  lemma FallsOnMonth(d: Date, day: int, monthOfYear: int)
    requires FallsOn(d, day, monthOfYear)
    ensures 1 <= monthOfYear <= 12 && d == Date(MonthCount(d.Year(), monthOfYear), day)
  {
  }

  /** Only 29 February is in some years and not in others. */
  lemma DaysInYears(year: int, other: int, monthOfYear: int)
    requires 1 <= monthOfYear <= 12
    ensures monthOfYear != 2 ==> DaysIn(MonthCount(year, monthOfYear)) == DaysIn(MonthCount(other, monthOfYear))
    ensures DaysIn(MonthCount(year, 2)) == if IsLeap(year) then 29 else 28
  {
    MonthCountSplits(year, monthOfYear);
    MonthCountSplits(other, monthOfYear);
    MonthCountSplits(year, 2);
  }

  /** The requested day exists in this year. */
  predicate ExistsThisYear(today: Date, day: int, monthOfYear: int) {
    1 <= monthOfYear <= 12 && 1 <= day <= DaysIn(MonthCount(today.Year(), monthOfYear))
  }

  /** Which of its branches resolveCalendarDate takes when no year is given. */
  lemma ResolveBranches(day: int, monthOfYear: int, today: Date)
    requires today.Valid()
    ensures var month := MonthCount(today.Year(), monthOfYear);
            ResolveCalendarDate(day, monthOfYear, None, today) ==
            if !ExistsThisYear(today, day, monthOfYear) then None
            else if !Before(Date(month, day), today) then Some(Date(month, day))
            else if day <= DaysIn(month + 12) then Some(Date(month + 12, day))
            else Some(Date(month, day))
  {
    if 1 <= monthOfYear <= 12 && 1 <= day <= 31 {
      var month := MonthCount(today.Year(), monthOfYear);
      MonthCountSplits(today.Year(), monthOfYear);
      MonthCountSplits(today.Year() + 1, monthOfYear);
      assert MonthCount(today.Year() + 1, monthOfYear) == month + 12;
      if day > DaysIn(month) {
        NormalizeOverflow(month, day);
        assert (month + 1) % 12 != month % 12;
      }
      if day > DaysIn(month + 12) {
        NormalizeOverflow(month + 12, day);
        assert (month + 13) % 12 != month % 12;
      }
    }
  }

  /** A 29 February lies ahead of every date: the year 400 * (|y| + 1) is a leap year after y. */
  lemma LeapDayAhead(today: Date) returns (d: Date)
    requires today.Valid()
    ensures FallsOn(d, 29, 2) && Before(today, d)
  {
    var year := 400 * (Abs(today.Year()) + 1);
    assert year % 4 == 0 && year % 400 == 0;
    d := Date(MonthCount(year, 2), 29);
    MonthCountSplits(year, 2);
    assert IsLeap(d.month / 12) && d.month % 12 == 1;
    assert today.Year() < year;
  }

  /**
   Whether resolveCalendarDate without a year can be wrong: only for 29 February, unless this year's
   is still ahead.
   */
  predicate Trustworthy(today: Date, day: int, monthOfYear: int) {
    !(monthOfYear == 2 && day == 29)
    || (IsLeap(today.Year()) && !Before(Date(MonthCount(today.Year(), 2), 29), today))
  }

  /**
   Without a year, the answer is the earliest date from today on with the given day and month,
   and None only if no such date exists, exactly when the request is not a 29 February that
   this year lacks or has left behind.
   */
  lemma ResolveWithoutYear(day: int, monthOfYear: int, today: Date)
    requires today.Valid()
    ensures IsEarliestFrom(today, day, monthOfYear, ResolveCalendarDate(day, monthOfYear, None, today))
            <==> Trustworthy(today, day, monthOfYear)
  {
    ResolveBranches(day, monthOfYear, today);
    if monthOfYear == 2 && day == 29 {
      ResolveLeapDay(today);
    } else {
      ResolveOrdinaryDay(day, monthOfYear, today);
    }
  }

  lemma ResolveOrdinaryDay(day: int, monthOfYear: int, today: Date)
    requires today.Valid() && !(monthOfYear == 2 && day == 29)
    ensures IsEarliestFrom(today, day, monthOfYear, ResolveCalendarDate(day, monthOfYear, None, today))
  {
    hide ResolveCalendarDate, Normalize;
    ResolveBranches(day, monthOfYear, today);
    var answer := ResolveCalendarDate(day, monthOfYear, None, today);
    var year := today.Year();
    if 1 <= monthOfYear <= 12 {
      MonthCountSplits(year, monthOfYear);
      MonthCountSplits(year + 1, monthOfYear);
      DaysInYears(year, year + 1, monthOfYear);
    }
    forall d: Date | FallsOn(d, day, monthOfYear)
      ensures answer.None? ==> Before(d, today)
      ensures answer.Some? && Before(d, answer.value) ==> Before(d, today)
    {
      FallsOnMonth(d, day, monthOfYear);
      DaysInYears(d.Year(), year, monthOfYear);
      MonthCountSplits(d.Year(), monthOfYear);
    }
  }

  lemma ResolveLeapDay(today: Date)
    requires today.Valid()
    ensures IsEarliestFrom(today, 29, 2, ResolveCalendarDate(29, 2, None, today)) <==> Trustworthy(today, 29, 2)
  {
    ResolveBranches(29, 2, today);
    var answer := ResolveCalendarDate(29, 2, None, today);
    var year := today.Year();
    MonthCountSplits(year, 2);
    DaysInYears(year, year + 1, 2);
    var ahead := LeapDayAhead(today);
    if Trustworthy(today, 29, 2) {
      forall d: Date | FallsOn(d, 29, 2) && Before(d, answer.value) ensures Before(d, today) {
        FallsOnMonth(d, 29, 2);
      }
    } else if answer.Some? {
      MonthCountSplits(year + 1, 2);
      DaysInYears(year + 1, year, 2);
      assert answer.value == Date(MonthCount(year, 2), 29);
    }
  }

  /** With a year, the answer is that very date if it exists, and None otherwise. */
  lemma ResolveWithYear(day: int, monthOfYear: int, year: int, today: Date)
    ensures var answer := ResolveCalendarDate(day, monthOfYear, Some(year), today);
            var meant := if year < 100 then year + 2000 else year;
            && (answer.Some? <==> 1 <= monthOfYear <= 12 && 1 <= day <= DaysIn(MonthCount(meant, monthOfYear)))
            && (answer.Some? ==> FallsOn(answer.value, day, monthOfYear) && answer.value.Year() == meant)
  {
    var month := MonthCount(FullYear(year), monthOfYear);
    if 1 <= monthOfYear <= 12 && 1 <= day <= 31 {
      MonthCountSplits(FullYear(year), monthOfYear);
      if day > DaysIn(month) {
        NormalizeOverflow(month, day);
        assert (month + 1) % 12 != month % 12;
      }
    }
  }

  // ---------- nextFutureDayOfMonth ----------

  function NextFutureDayOfMonth(today: Date, day: int): Option<Date> {
    if day <= 0 || day > 31 then None
    else
      var first := Normalize(today.month, day);
      var candidate :=
        if first.MonthOfYear() != today.MonthOfYear() || first.day != day || Before(first, today)
        then Normalize(today.month + 1, day) else first;
      if candidate.day != day then None else Some(candidate)
  }

  /** A date that this month or the next offers for the requested day. */
  predicate Offered(today: Date, day: int, d: Date) {
    d.Valid() && d.day == day && today.month <= d.month <= today.month + 1 && !Before(d, today)
  }

  /**
   The earliest date with the requested day that this month or the next offers; None exactly if
   neither offers one.
   */
  lemma NextFutureDayIsEarliest(today: Date, day: int)
    requires today.Valid()
    ensures match NextFutureDayOfMonth(today, day)
            case None => forall d: Date :: !Offered(today, day, d)
            case Some(next) =>
              Offered(today, day, next) && forall d: Date :: Offered(today, day, d) ==> d == next || Before(next, d)
  {
    if 1 <= day <= 31 {
      if day > DaysIn(today.month) {
        NormalizeOverflow(today.month, day);
        assert (today.month + 1) % 12 != today.month % 12;
      }
      if day > DaysIn(today.month + 1) {
        NormalizeOverflow(today.month + 1, day);
      }
    }
  }

  // ---------- addRelativeDuration ----------

  datatype TimeUnit = Days | Weeks | Months | OtherUnit

  function AddRelativeDuration(base: Date, amount: int, unit: TimeUnit): Option<Date> {
    if amount <= 0 then None
    else match unit
      case Days => Some(AddDays(base, amount))
      case Weeks => Some(AddDays(base, 7 * amount))
      case Months => Some(AddMonths(base, amount))
      case OtherUnit => None
  }

  /**
   A longer duration ends strictly later, even where a month is too short for the day; amount 0
   stands for the base.
   */
  lemma RelativeDurationIncreases(base: Date, amount: nat, more: int, unit: TimeUnit)
    requires base.Valid() && amount < more && unit != OtherUnit
    ensures AddRelativeDuration(base, more, unit).Some?
    ensures var shorter := if amount == 0 then base else AddRelativeDuration(base, amount, unit).value;
            var longer := AddRelativeDuration(base, more, unit).value;
            shorter.Valid() && longer.Valid() && Before(shorter, longer)
  {
    hide DaysBefore, DaysIn;
    var shorter := if amount == 0 then base else AddRelativeDuration(base, amount, unit).value;
    var longer := AddRelativeDuration(base, more, unit).value;
    RelativeDayNumber(base, amount, unit);
    RelativeDayNumber(base, more, unit);
    if unit == Months {
      StrictlyMoreDays(base.month + amount, base.month + more);
    }
    DayNumberOrders(shorter, longer);
  }

  /**
   Days and weeks are counted exactly, months through the calendar: a day that the month lacks runs
   into the next one.
   */
  lemma RelativeDayNumber(base: Date, amount: nat, unit: TimeUnit)
    requires base.Valid() && unit != OtherUnit
    ensures var d := if amount == 0 then base else AddRelativeDuration(base, amount, unit).value;
            && d.Valid()
            && DayNumber(d) == match unit
               case Days => DayNumber(base) + amount
               case Weeks => DayNumber(base) + 7 * amount
               case _ => DaysBefore(base.month + amount) + base.day
  {
    hide DaysBefore, DaysIn;
    NormalizeKeepsDayNumber(base.month, base.day + amount);
    NormalizeKeepsDayNumber(base.month, base.day + 7 * amount);
    NormalizeKeepsDayNumber(base.month + amount, base.day);
  }

  /** There is an answer exactly for a positive amount of a known unit. */
  lemma RelativeDurationExists(base: Date, amount: int, unit: TimeUnit)
    ensures AddRelativeDuration(base, amount, unit).None? <==> amount < 1 || unit == OtherUnit
  {
  }

  lemma StrictlyMoreDays(month: int, later: int)
    requires month < later
    ensures DaysBefore(month) < DaysBefore(later)
  {
    MonthLength(month);
    MonthsGrow(month + 1, later);
  }
}
