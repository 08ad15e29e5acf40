/** The proleptic Gregorian calendar of Python's `date`, and the named reporting periods resolved on it. */
module Calendar {
  import opened Prelude

  datatype Date = Date(year: int, month: int, day: int)

  const MIN_YEAR := 1
  const MAX_YEAR := 9999

  predicate Leap(y: int) {
    y % 4 == 0 && (y % 100 != 0 || y % 400 == 0)
  }

  function DaysInMonth(y: int, m: int): int {
    if m == 2 then if Leap(y) then 29 else 28
    else if m in {4, 6, 9, 11} then 30
    else 31
  }

  predicate ValidDate(d: Date) {
    MIN_YEAR <= d.year <= MAX_YEAR && 1 <= d.month <= 12 && 1 <= d.day <= DaysInMonth(d.year, d.month)
  }

  /** The day after, or `None` past the last date there is, where Python raises OverflowError. */
  function NextDay(d: Date): Option<Date> {
    if d.day < DaysInMonth(d.year, d.month) then Some(d.(day := d.day + 1))
    else if d.month < 12 then Some(Date(d.year, d.month + 1, 1))
    else if d.year < MAX_YEAR then Some(Date(d.year + 1, 1, 1))
    else None
  }

  function PrevDay(d: Date): Option<Date> {
    if d.day > 1 then Some(d.(day := d.day - 1))
    else if d.month > 1 then Some(Date(d.year, d.month - 1, DaysInMonth(d.year, d.month - 1)))
    else if d.year > MIN_YEAR then Some(Date(d.year - 1, 12, 31))
    else None
  }

  /** `d + timedelta(days=n)`. */
  function AddDays(d: Date, n: int): Option<Date>
    decreases if n < 0 then -n else n
  {
    if n == 0 then Some(d)
    else
      match if n > 0 then NextDay(d) else PrevDay(d)
      case None => None
      case Some(e) => AddDays(e, if n > 0 then n - 1 else n + 1)
  }

  // ---- ordinals ----

  function DaysBeforeYear(y: int): int {
    (y - 1) * 365 + (y - 1) / 4 - (y - 1) / 100 + (y - 1) / 400
  }

  function DaysBeforeMonth(y: int, m: int): int
    decreases m
  {
    if m <= 1 then 0 else DaysBeforeMonth(y, m - 1) + DaysInMonth(y, m - 1)
  }

  /** `toordinal`: 1 for the first day of year 1. */
  function Ordinal(d: Date): int {
    DaysBeforeYear(d.year) + DaysBeforeMonth(d.year, d.month) + d.day
  }

  const FIRST_DAY := Date(MIN_YEAR, 1, 1)
  const LAST_DAY := Date(MAX_YEAR, 12, 31)

  /** Monday is 0. */
  function Weekday(d: Date): int {
    (Ordinal(d) + 6) % 7
  }

  lemma YearLength(y: int)
    ensures DaysBeforeYear(y + 1) == DaysBeforeYear(y) + if Leap(y) then 366 else 365
  {
    assert y / 4 == (y - 1) / 4 + if y % 4 == 0 then 1 else 0;
    assert y / 100 == (y - 1) / 100 + if y % 100 == 0 then 1 else 0;
    assert y / 400 == (y - 1) / 400 + if y % 400 == 0 then 1 else 0;
  }

  lemma MonthsFillYear(y: int)
    ensures DaysBeforeMonth(y, 12) + 31 == if Leap(y) then 366 else 365
  {
    assert DaysBeforeMonth(y, 4) == 31 + DaysInMonth(y, 2) + 31;
    assert DaysBeforeMonth(y, 7) == DaysBeforeMonth(y, 4) + 91;
    assert DaysBeforeMonth(y, 10) == DaysBeforeMonth(y, 7) + 92;
    assert DaysBeforeMonth(y, 12) == DaysBeforeMonth(y, 10) + 61;
  }

  /** The ordinal counts days: the next date's is one more, the previous date's one less. */
  lemma NextDayOrdinal(d: Date)
    requires ValidDate(d)
    ensures NextDay(d).None? <==> d == LAST_DAY
    ensures NextDay(d).Some? ==> ValidDate(NextDay(d).value) && Ordinal(NextDay(d).value) == Ordinal(d) + 1
  {
    YearLength(d.year);
    MonthsFillYear(d.year);
  }

  lemma PrevDayOrdinal(d: Date)
    requires ValidDate(d)
    ensures PrevDay(d).None? <==> d == FIRST_DAY
    ensures PrevDay(d).Some? ==> ValidDate(PrevDay(d).value) && Ordinal(PrevDay(d).value) == Ordinal(d) - 1
  {
    YearLength(d.year - 1);
    MonthsFillYear(d.year - 1);
  }

  lemma {:induction false} YearsIncrease(y: int, z: int)
    requires y < z
    ensures DaysBeforeYear(y) + 365 <= DaysBeforeYear(z)
    ensures Leap(y) ==> DaysBeforeYear(y) + 366 <= DaysBeforeYear(z)
    decreases z - y
  {
    YearLength(z - 1);
    if y < z - 1 {
      YearsIncrease(y, z - 1);
    }
  }

  lemma {:induction false} MonthsIncrease(y: int, m: int, n: int)
    requires 1 <= m <= n
    ensures m < n ==> DaysBeforeMonth(y, m) + DaysInMonth(y, m) <= DaysBeforeMonth(y, n)
    ensures DaysBeforeMonth(y, m) <= DaysBeforeMonth(y, n)
    decreases n - m
  {
    if m < n - 1 {
      MonthsIncrease(y, m, n - 1);
    }
  }

  predicate Earlier(d: Date, e: Date) {
    d.year < e.year || (d.year == e.year && (d.month < e.month || (d.month == e.month && d.day < e.day)))
  }

  /** Ordinals order dates as the calendar does, so equal ordinals mean equal dates. */
  lemma OrdinalIsMonotone(d: Date, e: Date)
    requires ValidDate(d) && ValidDate(e) && Earlier(d, e)
    ensures Ordinal(d) < Ordinal(e)
  {
    if d.year < e.year {
      YearsIncrease(d.year, e.year);
      MonthsFillYear(d.year);
      MonthsIncrease(d.year, d.month, 12);
      MonthsIncrease(e.year, 1, e.month);
    } else if d.month < e.month {
      MonthsIncrease(d.year, d.month, e.month);
    }
  }

  lemma OrdinalBounds(d: Date)
    requires ValidDate(d)
    ensures Ordinal(FIRST_DAY) <= Ordinal(d) <= Ordinal(LAST_DAY)
  {
    if d != FIRST_DAY { OrdinalIsMonotone(FIRST_DAY, d); }
    if d != LAST_DAY { OrdinalIsMonotone(d, LAST_DAY); }
  }

  lemma SameOrdinal(d: Date, e: Date)
    requires ValidDate(d) && ValidDate(e) && Ordinal(d) == Ordinal(e)
    ensures d == e
  {
    if Earlier(d, e) { OrdinalIsMonotone(d, e); }
    if Earlier(e, d) { OrdinalIsMonotone(e, d); }
  }

  /** Adding days adds to the ordinal, and overflows exactly when the result leaves the calendar. */
  lemma {:induction false} AddDaysOrdinal(d: Date, n: int)
    requires ValidDate(d)
    ensures AddDays(d, n).Some? <==> Ordinal(FIRST_DAY) <= Ordinal(d) + n <= Ordinal(LAST_DAY)
    ensures AddDays(d, n).Some? ==> ValidDate(AddDays(d, n).value) && Ordinal(AddDays(d, n).value) == Ordinal(d) + n
    decreases if n < 0 then -n else n
  {
    hide Ordinal;
    OrdinalBounds(d);
    if n > 0 {
      NextDayOrdinal(d);
      if NextDay(d).Some? { AddDaysOrdinal(NextDay(d).value, n - 1); }
    } else if n < 0 {
      PrevDayOrdinal(d);
      if PrevDay(d).Some? { AddDaysOrdinal(PrevDay(d).value, n + 1); }
    }
  }

  // ---- the calendar, written out ----

  /** The months have the lengths they have, and every fourth year is a leap year but for three centuries out of four.
      */
  lemma MonthsAreGregorian(y: int, m: int)
    requires 1 <= m <= 12
    ensures DaysInMonth(y, m) ==
      if m == 2 && (y % 400 == 0 || (y % 4 == 0 && y % 100 != 0)) then 29
      else [31, 28, 31, 30, 31, 30, 31, 31, 30, 31, 30, 31][m - 1]
  {
  }

  lemma FirstDayIsMonday()
    ensures Weekday(Date(1, 1, 1)) == 0
  {
  }

  lemma RemaindersFollow(t: int)
    ensures (t + 1 + 6) % 7 == if (t + 6) % 7 == 6 then 0 else (t + 6) % 7 + 1
  {
  }

  /** Weekdays follow one another. */
  lemma WeekdaysFollow(d: Date)
    requires ValidDate(d) && d != Date(9999, 12, 31)
    ensures NextDay(d).Some? && Weekday(NextDay(d).value) == if Weekday(d) == 6 then 0 else Weekday(d) + 1
  {
    hide Ordinal, DaysInMonth;
    NextDayOrdinal(d);
    hide NextDay;
    RemaindersFollow(Ordinal(d));
  }

  // ---- periods ----

  datatype Period = Today | Yesterday | ThisWeek | LastWeek | Last7Days | Last30Days | ThisMonth | LastMonth

  datatype Range = Range(from: Date, to: Date)

  function RangeOf(from: Option<Date>, to: Option<Date>): Option<Range> {
    if from.Some? && to.Some? then Some(Range(from.value, to.value)) else None
  }

  function FirstOfMonth(d: Date): Date {
    d.(day := 1)
  }

  /** `resolve_period`; `None` where date arithmetic overflows. */
  function ResolvePeriod(p: Period, today: Date): Option<Range> {
    match p
    case Today => Some(Range(today, today))
    case Yesterday =>
      var d := AddDays(today, -1);
      RangeOf(d, d)
    case ThisWeek =>
      var monday := AddDays(today, -Weekday(today));
      if monday.None? then None else RangeOf(monday, AddDays(monday.value, 6))
    case LastWeek =>
      var thisMonday := AddDays(today, -Weekday(today));
      if thisMonday.None? then None
      else
        var lastMonday := AddDays(thisMonday.value, -7);
        if lastMonday.None? then None else RangeOf(lastMonday, AddDays(lastMonday.value, 6))
    case Last7Days => RangeOf(AddDays(today, -6), Some(today))
    case Last30Days => RangeOf(AddDays(today, -29), Some(today))
    case ThisMonth => Some(Range(FirstOfMonth(today), today))
    case LastMonth =>
      var lastOfLastMonth := AddDays(FirstOfMonth(today), -1);
      if lastOfLastMonth.None? then None
      else Some(Range(FirstOfMonth(lastOfLastMonth.value), lastOfLastMonth.value))
  }

  /** The ordinals each period should span. */
  function Span(p: Period, today: Date): (int, int) {
    var t := Ordinal(today);
    match p
    case Today => (t, t)
    case Yesterday => (t - 1, t - 1)
    case ThisWeek => (t - Weekday(today), t - Weekday(today) + 6)
    case LastWeek => (t - Weekday(today) - 7, t - Weekday(today) - 1)
    case Last7Days => (t - 6, t)
    case Last30Days => (t - 29, t)
    case ThisMonth => (t - today.day + 1, t)
    case LastMonth =>
      (t - today.day + 1 - DaysInMonth(today.year, if today.month == 1 then 12 else today.month - 1), t - today.day)
  }

  /** The range is made of real dates, in order, and spans exactly the given ordinals. */
  ghost predicate Spans(r: Range, from: int, to: int) {
    ValidDate(r.from) && ValidDate(r.to) && Ordinal(r.from) == from <= to == Ordinal(r.to)
  }

  ghost predicate InCalendar(from: int, to: int) {
    Ordinal(FIRST_DAY) <= from && to <= Ordinal(LAST_DAY)
  }

  lemma WeekSpans(p: Period, today: Date)
    requires ValidDate(today) && p in {ThisWeek, LastWeek}
    ensures var r, span := ResolvePeriod(p, today), Span(p, today);
      (r.Some? <==> InCalendar(span.0, span.1)) && (r.Some? ==> Spans(r.value, span.0, span.1))
  {
    hide Ordinal, AddDays;
    OrdinalBounds(today);
    AddDaysOrdinal(today, -Weekday(today));
    var monday := AddDays(today, -Weekday(today));
    if monday.Some? {
      AddDaysOrdinal(monday.value, 6);
      AddDaysOrdinal(monday.value, -7);
      if AddDays(monday.value, -7).Some? { AddDaysOrdinal(AddDays(monday.value, -7).value, 6); }
    }
  }

  lemma DaySpans(p: Period, today: Date)
    requires ValidDate(today) && p in {Today, Yesterday, Last7Days, Last30Days}
    ensures var r, span := ResolvePeriod(p, today), Span(p, today);
      (r.Some? <==> InCalendar(span.0, span.1)) && (r.Some? ==> Spans(r.value, span.0, span.1))
  {
    hide Ordinal, AddDays, ValidDate, DaysInMonth, Weekday;
    OrdinalBounds(today);
    AddDaysOrdinal(today, -1);
    AddDaysOrdinal(today, -6);
    AddDaysOrdinal(today, -29);
  }

  lemma FirstOfMonthOrdinal(d: Date)
    requires ValidDate(d)
    ensures ValidDate(FirstOfMonth(d)) && Ordinal(FirstOfMonth(d)) == Ordinal(d) - d.day + 1
  {
  }

  lemma MonthSpans(p: Period, today: Date)
    requires ValidDate(today) && p in {ThisMonth, LastMonth}
    ensures var r, span := ResolvePeriod(p, today), Span(p, today);
      (r.Some? <==> InCalendar(span.0, span.1)) && (r.Some? ==> Spans(r.value, span.0, span.1))
  {
    hide Ordinal, AddDays;
    OrdinalBounds(today);
    FirstOfMonthOrdinal(today);
    OrdinalBounds(FirstOfMonth(today));
    DayBefore(FirstOfMonth(today));
    var eve := PrevDay(FirstOfMonth(today));
    PrevDayOrdinal(FirstOfMonth(today));
    if eve.Some? {
      FirstOfMonthOrdinal(eve.value);
      OrdinalBounds(FirstOfMonth(eve.value));
    }
  }

  lemma DayBefore(d: Date)
    ensures AddDays(d, -1) == PrevDay(d)
  {
  }

  /** Every period is a range of real dates spanning exactly its ordinals, and resolving it overflows exactly when that
      span leaves the calendar. */
  lemma PeriodSpans(p: Period, today: Date)
    requires ValidDate(today)
    ensures var r, span := ResolvePeriod(p, today), Span(p, today);
      (r.Some? <==> InCalendar(span.0, span.1)) && (r.Some? ==> Spans(r.value, span.0, span.1))
  {
    hide *;
    if p in {ThisWeek, LastWeek} {
      WeekSpans(p, today);
    } else if p in {ThisMonth, LastMonth} {
      MonthSpans(p, today);
    } else {
      DaySpans(p, today);
    }
  }

  lemma WeekStart(t: int)
    ensures var monday := t - (t + 6) % 7;
      (monday + 6) % 7 == 0 && (monday + 6 + 6) % 7 == 6 && (monday - 7 + 6) % 7 == 0 && monday <= t <= monday + 6
  {
  }

  /** This week runs from a Monday to a Sunday, contains today, and starts the day after last week ends. */
  lemma WeeksAreMondayToSunday(today: Date)
    requires ValidDate(today) && ResolvePeriod(ThisWeek, today).Some?
    ensures var week := ResolvePeriod(ThisWeek, today).value;
      && Weekday(week.from) == 0 && Weekday(week.to) == 6
      && Ordinal(week.from) <= Ordinal(today) <= Ordinal(week.to)
    ensures ResolvePeriod(LastWeek, today).Some? ==>
      && NextDay(ResolvePeriod(LastWeek, today).value.to) == Some(ResolvePeriod(ThisWeek, today).value.from)
      && Weekday(ResolvePeriod(LastWeek, today).value.from) == 0
  {
    hide ResolvePeriod, Ordinal;
    PeriodSpans(ThisWeek, today);
    PeriodSpans(LastWeek, today);
    WeekStart(Ordinal(today));
    if ResolvePeriod(LastWeek, today).Some? {
      var sunday, monday := ResolvePeriod(LastWeek, today).value.to, ResolvePeriod(ThisWeek, today).value.from;
      NextDayOrdinal(sunday);
      OrdinalBounds(monday);
      SameOrdinal(NextDay(sunday).value, monday);
    }
  }

  /** Last month is the whole previous calendar month, January and leap years included, and this month starts the day
      after it. */
  lemma LastMonthIsWhole(today: Date)
    requires ValidDate(today)
    ensures var last := ResolvePeriod(LastMonth, today);
      var (y, m) := if today.month == 1 then (today.year - 1, 12) else (today.year, today.month - 1);
      && (last.None? <==> y < MIN_YEAR)
      && (last.Some? ==> last.value == Range(Date(y, m, 1), Date(y, m, DaysInMonth(y, m))))
      && (last.Some? ==> NextDay(last.value.to) == Some(ResolvePeriod(ThisMonth, today).value.from))
    ensures ResolvePeriod(ThisMonth, today) == Some(Range(Date(today.year, today.month, 1), today))
  {
    hide AddDays;
    DayBefore(FirstOfMonth(today));
  }
}
