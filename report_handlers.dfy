/**
 * The pure pieces of the report handlers: the stock status of an inventory
 * row, the day, week and month windows of the dashboard, the TO_CHAR
 * format chosen for a sales-report period, and the bound an end date
 * becomes. Times are nanoseconds since 1970-01-01 00:00 in the server's
 * zone, and calendar days are counted by the proleptic Gregorian calendar.
 */
module ReportHandlers {
  import opened Wrappers
  import opened Store

  // ---------------------------------------------------------------- inventory status

  const LowStock: string := "Low Stock"
  const OutOfStock: string := "Out of Stock"
  const InStock: string := "In Stock"

  /**
   * The status of a row of the inventory report, from its nullable
   * current_stock and low_stock_threshold columns.
   */
  function StockStatus(stock: Option<int>, threshold: Option<int>): (r: string)
    ensures r in {LowStock, OutOfStock, InStock}
  {
    if threshold.Some? then
      if stock.Some? && stock.value <= threshold.value then LowStock
      else if stock.Some? && stock.value == 0 then OutOfStock
      else InStock
    else if stock.Some? && stock.value == 0 then OutOfStock
    else InStock
  }

  /** With a threshold, a stock at or below it is low. */
  lemma LowStockRule(stock: Option<int>, threshold: Option<int>)
    ensures StockStatus(stock, threshold) == LowStock <==>
              stock.Some? && threshold.Some? && stock.value <= threshold.value
  {
  }

  /**
   * A row is out of stock exactly when its stock is 0 and there is no
   * threshold or a negative one: with a threshold of 0 or more, an empty
   * shelf reads as low stock.
   */
  lemma OutOfStockRule(stock: Option<int>, threshold: Option<int>)
    ensures StockStatus(stock, threshold) == OutOfStock <==>
              stock == Some(0) && (threshold.None? || threshold.value < 0)
    ensures stock == Some(0) && threshold.Some? && threshold.value >= 0 ==> StockStatus(stock, threshold) == LowStock
  {
  }

  /** A row without a stock figure (an untracked item) is always in stock. */
  lemma UntrackedInStock(threshold: Option<int>)
    ensures StockStatus(None, threshold) == InStock
  {
  }

  // ---------------------------------------------------------------- the calendar

  datatype CivilDate = CivilDate(year: int, month: int, day: int)

  predicate IsLeap(y: int) {
    y % 4 == 0 && (y % 100 != 0 || y % 400 == 0)
  }

  function DaysIn(y: int, m: int): (n: int)
    requires 1 <= m <= 12
    ensures 28 <= n <= 31
  {
    if m == 2 then (if IsLeap(y) then 29 else 28)
    else if m in {4, 6, 9, 11} then 30
    else 31
  }

  predicate ValidDate(c: CivilDate) {
    1 <= c.month <= 12 && 1 <= c.day <= DaysIn(c.year, c.month)
  }

  /** Days of year `y` before the first of month `m` (13 for the whole year). */
  function DaysBeforeMonth(y: int, m: int): nat
    requires 1 <= m <= 13
  {
    if m == 1 then 0 else DaysBeforeMonth(y, m - 1) + DaysIn(y, m - 1)
  }

  /** Leap years among 1..y, extended to all integers by floor division. */
  function LeapsThrough(y: int): int {
    y / 4 - y / 100 + y / 400
  }

  /** Days from 1970-01-01 to the first of January of year `y`. */
  function DaysBeforeYear(y: int): int {
    365 * (y - 1970) + LeapsThrough(y - 1) - LeapsThrough(1969)
  }

  /** Days from 1970-01-01 to the date. */
  function DayNumber(c: CivilDate): int
    requires ValidDate(c)
  {
    DaysBeforeYear(c.year) + DaysBeforeMonth(c.year, c.month) + c.day - 1
  }

  /** time.Weekday of a day: Sunday is 0; 1970-01-01 was a Thursday. */
  function Weekday(dayNumber: int): (w: int)
    ensures 0 <= w < 7
  {
    (dayNumber + 4) % 7
  }

  /** The day count of 1970-01-01 is 0 and it is a Thursday. */
  lemma EpochDay()
    ensures DayNumber(CivilDate(1970, 1, 1)) == 0 && Weekday(0) == 4
  {
  }

  /** A year has 366 days when it is a leap year and 365 otherwise. */
  lemma YearLength(y: int)
    ensures DaysBeforeMonth(y, 13) == if IsLeap(y) then 366 else 365
  {
    var feb := DaysIn(y, 2);
    assert DaysBeforeMonth(y, 2) == 31;
    assert DaysBeforeMonth(y, 3) == 31 + feb;
    assert DaysBeforeMonth(y, 4) == 62 + feb;
    assert DaysBeforeMonth(y, 5) == 92 + feb;
    assert DaysBeforeMonth(y, 6) == 123 + feb;
    assert DaysBeforeMonth(y, 7) == 153 + feb;
    assert DaysBeforeMonth(y, 8) == 184 + feb;
    assert DaysBeforeMonth(y, 9) == 215 + feb;
    assert DaysBeforeMonth(y, 10) == 245 + feb;
    assert DaysBeforeMonth(y, 11) == 276 + feb;
    assert DaysBeforeMonth(y, 12) == 306 + feb;
  }

  /** Consecutive years are a year length apart. */
  lemma {:induction false} NextYear(y: int)
    ensures DaysBeforeYear(y + 1) == DaysBeforeYear(y) + DaysBeforeMonth(y, 13)
  {
    YearLength(y);
    assert LeapsThrough(y) - LeapsThrough(y - 1) == if IsLeap(y) then 1 else 0 by {
      LeapStep(y);
    }
  }

  /** Exactly the leap years add one to the count of leap years. */
  lemma LeapStep(y: int)
    ensures LeapsThrough(y) - LeapsThrough(y - 1) == if IsLeap(y) then 1 else 0
  {
    QuarterStep(y);
    CenturyStep(y);
    QuadCenturyStep(y);
    MultipleChain(y);
  }

  lemma QuarterStep(y: int)
    ensures y / 4 - (y - 1) / 4 == if y % 4 == 0 then 1 else 0
  {
  }

  lemma CenturyStep(y: int)
    ensures y / 100 - (y - 1) / 100 == if y % 100 == 0 then 1 else 0
  {
  }

  lemma QuadCenturyStep(y: int)
    ensures y / 400 - (y - 1) / 400 == if y % 400 == 0 then 1 else 0
  {
  }

  lemma MultipleChain(y: int)
    ensures y % 400 == 0 ==> y % 100 == 0
    ensures y % 100 == 0 ==> y % 4 == 0
  {
  }

  /** The first of the month after the one `c` falls in. */
  function FirstOfNextMonth(c: CivilDate): CivilDate {
    if c.month == 12 then CivilDate(c.year + 1, 1, 1) else CivilDate(c.year, c.month + 1, 1)
  }

  /** The first of the next month comes a month length after the first of this one. */
  lemma {:induction false} MonthLength(c: CivilDate)
    requires ValidDate(c)
    ensures ValidDate(FirstOfNextMonth(c))
    ensures DayNumber(FirstOfNextMonth(c)) == DayNumber(c.(day := 1)) + DaysIn(c.year, c.month)
  {
    if c.month == 12 {
      NextYear(c.year);
    }
  }

  /** The day after a date: time.AddDate(0, 0, 1) on a calendar date. */
  function NextDay(c: CivilDate): CivilDate
    requires ValidDate(c)
  {
    if c.day < DaysIn(c.year, c.month) then c.(day := c.day + 1) else FirstOfNextMonth(c)
  }

  /** NextDay is a valid date one day count later. */
  lemma NextDayNumber(c: CivilDate)
    requires ValidDate(c)
    ensures ValidDate(NextDay(c)) && DayNumber(NextDay(c)) == DayNumber(c) + 1
  {
    if c.day == DaysIn(c.year, c.month) {
      MonthLength(c);
    }
  }

  // ---------------------------------------------------------------- dashboard windows

  /** The clock's reading: today's date and the nanoseconds since midnight. */
  datatype Clock = Clock(date: CivilDate, sinceMidnight: int)

  predicate ValidClock(now: Clock) {
    ValidDate(now.date) && 0 <= now.sinceMidnight < Day
  }

  function Instant(now: Clock): Time
    requires ValidClock(now)
  {
    DayNumber(now.date) * Day + now.sinceMidnight
  }

  /** A closed window [start, end] of instants, as the BETWEEN queries use it. */
  datatype Window = Window(start: Time, end: Time)

  predicate Within(t: Time, w: Window) {
    w.start <= t <= w.end
  }

  /** Today: midnight to one nanosecond before the next midnight. */
  function DayWindow(now: Clock): Window
    requires ValidClock(now)
  {
    var startOfDay := DayNumber(now.date) * Day;
    Window(startOfDay, startOfDay + Day - 1)
  }

  /** The day count of this week's Monday: back weekday-1 days, or 6 from a Sunday. */
  function WeekStartDay(today: int): int {
    if Weekday(today) == 0 then today - 6 else today - (Weekday(today) - 1)
  }

  /** This week: its Monday's midnight to seven days later less one nanosecond. */
  function WeekWindow(now: Clock): Window
    requires ValidClock(now)
  {
    var startOfWeek := WeekStartDay(DayNumber(now.date)) * Day;
    Window(startOfWeek, startOfWeek + 7 * Day - 1)
  }

  /** This month: the first's midnight to the next month's first midnight less one nanosecond. */
  function MonthWindow(now: Clock): Window
    requires ValidClock(now)
  {
    Window(DayNumber(now.date.(day := 1)) * Day, DayNumber(FirstOfNextMonth(now.date)) * Day - 1)
  }

  /** Today's window holds the instant and spans one day. */
  lemma DayWindowHoldsNow(now: Clock)
    requires ValidClock(now)
    ensures Within(Instant(now), DayWindow(now))
    ensures DayWindow(now).end - DayWindow(now).start == Day - 1
  {
  }

  /**
   * The week window starts at a Monday midnight no more than six days
   * back, holds the instant, and spans seven days.
   */
  lemma WeekWindowHoldsNow(now: Clock)
    requires ValidClock(now)
    ensures var today := DayNumber(now.date);
      && Weekday(WeekStartDay(today)) == 1
      && WeekStartDay(today) <= today < WeekStartDay(today) + 7
      && WeekWindow(now) == Window(WeekStartDay(today) * Day, WeekStartDay(today) * Day + 7 * Day - 1)
    ensures Within(Instant(now), WeekWindow(now))
  {
    WeekStartMonday(DayNumber(now.date));
  }

  /** WeekStartDay goes back to a Monday, at most six days. */
  lemma WeekStartMonday(today: int)
    ensures Weekday(WeekStartDay(today)) == 1
    ensures WeekStartDay(today) <= today < WeekStartDay(today) + 7
  {
    var w := Weekday(today);
    var q := (today + 4) / 7;
    assert today + 4 == 7 * q + w;
    if w == 0 {
      assert WeekStartDay(today) + 4 == 7 * (q - 1) + 1;
    } else {
      assert WeekStartDay(today) + 4 == 7 * q + 1;
    }
  }

  /**
   * The month window starts at midnight on the first, holds the instant,
   * and spans exactly the days of the month.
   */
  lemma MonthWindowHoldsNow(now: Clock)
    requires ValidClock(now)
    ensures ValidDate(now.date.(day := 1))
    ensures MonthWindow(now).start == DayNumber(now.date.(day := 1)) * Day
    ensures MonthWindow(now).end + 1 - MonthWindow(now).start == DaysIn(now.date.year, now.date.month) * Day
    ensures Within(Instant(now), MonthWindow(now))
  {
    MonthLength(now.date);
    var first := DayNumber(now.date.(day := 1));
    assert DayNumber(now.date) == first + (now.date.day - 1);
    DaysScaled(first, now.date.day - 1, DaysIn(now.date.year, now.date.month), now.sinceMidnight);
  }

  /** Day k of an n-day stretch from day a, at any time of day, lies in the stretch's instants, which number n days. */
  lemma DaysScaled(a: int, k: int, n: int, s: int)
    requires 0 <= k < n && 0 <= s < Day
    ensures a * Day <= (a + k) * Day + s <= (a + n) * Day - 1
    ensures (a + n) * Day - 1 + 1 - a * Day == n * Day
  {
    assert (a + k) * Day == a * Day + k * Day;
    assert (a + n) * Day == a * Day + n * Day;
    assert (k + 1) * Day <= n * Day;
  }

  // ---------------------------------------------------------------- sales report parameters

  const DailyFormat: string := "YYYY-MM-DD"
  const WeeklyFormat: string := "IYYY-IW"
  const MonthlyFormat: string := "YYYY-MM"

  /** The TO_CHAR format that groups sales by report period. */
  function PeriodFormat(period: string): (r: string)
    ensures r in {DailyFormat, WeeklyFormat, MonthlyFormat}
  {
    if period == "weekly" then WeeklyFormat
    else if period == "monthly" then MonthlyFormat
    else DailyFormat
  }

  /**
   * Only the exact words "weekly" and "monthly" change the grouping; every
   * other period, "daily", "custom", "Weekly" or none, groups by day.
   */
  lemma PeriodFormatChoice(period: string)
    ensures PeriodFormat(period) == WeeklyFormat <==> period == "weekly"
    ensures PeriodFormat(period) == MonthlyFormat <==> period == "monthly"
    ensures PeriodFormat(period) == DailyFormat <==> period != "weekly" && period != "monthly"
  {
  }

  /** The condition an end_date parameter puts on order_time. */
  datatype EndBound =
    | NoEndBound
    | Before(exclusive: string)
    | AtMost(inclusive: string)

  /**
   * An end date in the 2006-01-02 layout becomes an exclusive bound at the
   * next day, so the whole end day is included; text that does not parse
   * is passed on as an inclusive bound. `parseDate` is time.Parse with
   * that layout and `formatDate` its Format.
   */
  function EndDateBound(endDate: string, parseDate: string -> Option<CivilDate>, formatDate: CivilDate -> string): (b: EndBound)
    requires forall s :: parseDate(s).Some? ==> ValidDate(parseDate(s).value)
  {
    if endDate == "" then NoEndBound
    else match parseDate(endDate)
      case Some(d) => Before(formatDate(NextDay(d)))
      case None => AtMost(endDate)
  }

  /**
   * A parsable end date gives the exclusive bound at the date one day
   * later; anything else non-empty is kept as an inclusive bound.
   */
  lemma EndDateBoundCases(endDate: string, parseDate: string -> Option<CivilDate>, formatDate: CivilDate -> string)
    requires forall s :: parseDate(s).Some? ==> ValidDate(parseDate(s).value)
    ensures var b := EndDateBound(endDate, parseDate, formatDate);
      && (b.NoEndBound? <==> endDate == "")
      && (b.Before? <==> endDate != "" && parseDate(endDate).Some?)
      && (b.AtMost? <==> endDate != "" && parseDate(endDate).None?)
      && (b.AtMost? ==> b.inclusive == endDate)
      && (b.Before? ==>
            var d := parseDate(endDate).value;
            exists next :: ValidDate(next) && DayNumber(next) == DayNumber(d) + 1 && b.exclusive == formatDate(next))
  {
    if endDate != "" && parseDate(endDate).Some? {
      var d := parseDate(endDate).value;
      NextDayNumber(d);
    }
  }
}
