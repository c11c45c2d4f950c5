/**
 * Quarter and month boundaries of proleptic Gregorian dates, as the date helpers of
 * `misc_tools` compute them with `datetime`, `relativedelta` and `timedelta`.
 * A timestamp is a date and the nanoseconds elapsed since its midnight.
 */
module Calendar {

  datatype Date = Date(year: int, month: int, day: int)

  /** A `pd.Timestamp`: the calendar day and the time of day in nanoseconds. */
  datatype Moment = Moment(date: Date, nanos: nat)

  const NanosPerDay: nat := 86_400_000_000_000

  predicate IsLeapYear(y: int) {
    y % 4 == 0 && (y % 100 != 0 || y % 400 == 0)
  }

  function DaysInMonth(y: int, m: int): (n: int)
    requires 1 <= m <= 12
    ensures 28 <= n <= 31
  {
    if m == 2 then (if IsLeapYear(y) then 29 else 28)
    else if m == 4 || m == 6 || m == 9 || m == 11 then 30
    else 31
  }

  predicate ValidDate(d: Date) {
    1 <= d.month <= 12 && 1 <= d.day <= DaysInMonth(d.year, d.month)
  }

  predicate ValidMoment(t: Moment) {
    ValidDate(t.date) && t.nanos < NanosPerDay
  }

  /** Strictly earlier in calendar order. */
  predicate Before(a: Date, b: Date) {
    a.year < b.year ||
    (a.year == b.year && (a.month < b.month || (a.month == b.month && a.day < b.day)))
  }

  /** Months since January of year 0: consecutive months have consecutive indices. */
  function MonthIndex(d: Date): int {
    d.year * 12 + d.month - 1
  }

  /** The month with which the quarter of `m` begins: 1, 4, 7 or 10. */
  function QuarterStartMonth(m: int): int {
    (m - 1) / 3 * 3 + 1
  }

  predicate IsLastDayOfMonth(d: Date) {
    ValidDate(d) && d.day == DaysInMonth(d.year, d.month)
  }

  predicate IsQuarterEnd(d: Date) {
    IsLastDayOfMonth(d) && d.month % 3 == 0
  }

  /** `d + timedelta(days=1)`. */
  function NextDay(d: Date): (r: Date)
    requires ValidDate(d)
    ensures ValidDate(r) && Before(d, r)
  {
    if d.day < DaysInMonth(d.year, d.month) then Date(d.year, d.month, d.day + 1)
    else if d.month < 12 then Date(d.year, d.month + 1, 1)
    else Date(d.year + 1, 1, 1)
  }

  /** `d - timedelta(days=1)`. */
  function PrevDay(d: Date): (r: Date)
    requires ValidDate(d)
    ensures ValidDate(r) && Before(r, d)
  {
    if d.day > 1 then Date(d.year, d.month, d.day - 1)
    else if d.month > 1 then Date(d.year, d.month - 1, DaysInMonth(d.year, d.month - 1))
    else Date(d.year - 1, 12, 31)
  }

  /** `d + timedelta(days=n)`. */
  function AddDays(d: Date, n: nat): (r: Date)
    requires ValidDate(d)
    ensures ValidDate(r)
    decreases n
  {
    if n == 0 then d else AddDays(NextDay(d), n - 1)
  }

  /** `d - timedelta(days=n)`. */
  function SubDays(d: Date, n: nat): (r: Date)
    requires ValidDate(d)
    ensures ValidDate(r)
    decreases n
  {
    if n == 0 then d else SubDays(PrevDay(d), n - 1)
  }

  lemma {:induction false} PrevNextDay(d: Date)
    requires ValidDate(d)
    ensures PrevDay(NextDay(d)) == d && NextDay(PrevDay(d)) == d
  {
  }

  /** `get_most_recent_quarter_end`: the day before the first day of the quarter of `t`, at midnight. */
  function MostRecentQuarterEnd(t: Moment): (r: Moment)
    requires ValidMoment(t)
    ensures r.nanos == 0 && IsQuarterEnd(r.date) && Before(r.date, t.date)
    ensures NextDay(r.date) == Date(t.date.year, QuarterStartMonth(t.date.month), 1)
  {
    var quarterMonth := (t.date.month - 1) / 3 * 3 + 1;
    Moment(PrevDay(Date(t.date.year, quarterMonth, 1)), 0)
  }

  /** `get_next_quarter_start`: the first day of the following quarter, at midnight. */
  function NextQuarterStart(t: Moment): (r: Moment)
    requires ValidMoment(t)
    ensures r.nanos == 0 && ValidDate(r.date) && r.date.day == 1
    ensures r.date.month % 3 == 1 && Before(t.date, r.date)
    ensures 1 <= MonthIndex(r.date) - MonthIndex(t.date) <= 3
  {
    var quarterMonth := (t.date.month - 1) / 3 * 3 + 4;
    var yearsToAdd := quarterMonth / 12;
    var quarterMonthMod := quarterMonth % 12;
    Moment(Date(t.date.year + yearsToAdd, quarterMonthMod, 1), 0)
  }

  /**
   * `get_end_of_current_month`: the time is dropped, day 28 of the month is moved four
   * days on (always into the next month), and as many days are taken off as that date's
   * day number.
   */
  function EndOfCurrentMonth(t: Moment): (r: Moment)
    requires ValidMoment(t)
    ensures r.nanos == 0 && IsLastDayOfMonth(r.date)
    ensures r.date.year == t.date.year && r.date.month == t.date.month
  {
    var d := t.date;
    var nextMonth := AddDays(Date(d.year, d.month, 28), 4);
    EndOfMonthStep(d.year, d.month);
    Moment(SubDays(nextMonth, nextMonth.day), 0)
  }

  lemma EndOfMonthStep(y: int, m: int)
    requires 1 <= m <= 12
    ensures var next := AddDays(Date(y, m, 28), 4);
            SubDays(next, next.day) == Date(y, m, DaysInMonth(y, m))
  {
    var n := DaysInMonth(y, m);
    var next := AddDays(Date(y, m, 28), 4);
    var first := NextDay(Date(y, m, n));
    assert first.day == 1 && PrevDay(first) == Date(y, m, n);
    var a, b := first.year, first.month;
    assert next == Date(a, b, 32 - n) by {
      assert AddDays(first, 1) == Date(a, b, 2) && AddDays(first, 2) == Date(a, b, 3);
      assert AddDays(first, 3) == Date(a, b, 4);
      if n == 28 {
        assert AddDays(Date(y, m, 28), 4) == AddDays(first, 3);
      } else if n == 29 {
        assert AddDays(Date(y, m, 28), 4) == AddDays(Date(y, m, 29), 3);
        assert AddDays(Date(y, m, 29), 3) == AddDays(first, 2);
      } else if n == 30 {
        assert AddDays(Date(y, m, 28), 4) == AddDays(Date(y, m, 29), 3);
        assert AddDays(Date(y, m, 29), 3) == AddDays(Date(y, m, 30), 2);
        assert AddDays(Date(y, m, 30), 2) == AddDays(first, 1);
      } else {
        assert AddDays(Date(y, m, 28), 4) == AddDays(Date(y, m, 29), 3);
        assert AddDays(Date(y, m, 29), 3) == AddDays(Date(y, m, 30), 2);
        assert AddDays(Date(y, m, 30), 2) == AddDays(Date(y, m, 31), 1);
        assert AddDays(Date(y, m, 31), 1) == first;
      }
    }
    assert SubDays(next, next.day) == PrevDay(first) by {
      if n == 28 {
        assert SubDays(next, 4) == SubDays(Date(a, b, 3), 3);
        assert SubDays(Date(a, b, 3), 3) == SubDays(Date(a, b, 2), 2);
        assert SubDays(Date(a, b, 2), 2) == SubDays(first, 1);
      } else if n == 29 {
        assert SubDays(next, 3) == SubDays(Date(a, b, 2), 2);
        assert SubDays(Date(a, b, 2), 2) == SubDays(first, 1);
      } else if n == 30 {
        assert SubDays(next, 2) == SubDays(first, 1);
      }
    }
  }

  /** `get_end_of_current_quarter`: the day before the start of the next quarter, at midnight. */
  function EndOfCurrentQuarter(t: Moment): (r: Moment)
    requires ValidMoment(t)
    ensures r.nanos == 0 && IsQuarterEnd(r.date) && !Before(r.date, t.date)
    ensures r.date.year == t.date.year && r.date.month == QuarterStartMonth(t.date.month) + 2
  {
    var quarterStart := NextQuarterStart(t);
    Moment(PrevDay(quarterStart.date), 0)
  }

  /** The end of the current quarter is the most recent quarter end as seen from the next quarter's start. */
  lemma {:induction false} QuarterEndsAgree(t: Moment)
    requires ValidMoment(t)
    ensures MostRecentQuarterEnd(NextQuarterStart(t)) == EndOfCurrentQuarter(t)
  {
    var s := NextQuarterStart(t).date;
    assert QuarterStartMonth(s.month) == s.month;
  }

  /** The end of the current month never falls after the end of the current quarter, nor before the date itself. */
  lemma {:induction false} MonthEndWithinQuarter(t: Moment)
    requires ValidMoment(t)
    ensures !Before(EndOfCurrentMonth(t).date, t.date)
    ensures !Before(EndOfCurrentQuarter(t).date, EndOfCurrentMonth(t).date)
  {
  }

  /** In January to March the most recent quarter end is December 31 of the year before. */
  lemma {:induction false} FirstQuarterLooksBackAYear(t: Moment)
    requires ValidMoment(t) && t.date.month <= 3
    ensures MostRecentQuarterEnd(t).date == Date(t.date.year - 1, 12, 31)
  {
  }

  /** In October to December the next quarter starts on January 1 of the year after. */
  lemma {:induction false} FourthQuarterRollsOver(t: Moment)
    requires ValidMoment(t) && t.date.month >= 10
    ensures NextQuarterStart(t).date == Date(t.date.year + 1, 1, 1)
  {
  }

  /** The documented examples for 2019-10-21. */
  lemma {:induction false} OctoberExamples()
    ensures MostRecentQuarterEnd(Moment(Date(2019, 10, 21), 0)) == Moment(Date(2019, 9, 30), 0)
    ensures NextQuarterStart(Moment(Date(2019, 10, 21), 0)) == Moment(Date(2020, 1, 1), 0)
    ensures EndOfCurrentMonth(Moment(Date(2019, 10, 21), 0)) == Moment(Date(2019, 10, 31), 0)
    ensures EndOfCurrentQuarter(Moment(Date(2019, 10, 21), 0)) == Moment(Date(2019, 12, 31), 0)
  {
  }

  /**
   * The documented examples for 2023-03-31 12:00: the month and the quarter both end on
   * that day, at midnight, so both results come before the given timestamp itself.
   */
  lemma {:induction false} MiddayExamples()
    ensures EndOfCurrentMonth(Moment(Date(2023, 3, 31), NanosPerDay / 2)) == Moment(Date(2023, 3, 31), 0)
    ensures EndOfCurrentQuarter(Moment(Date(2023, 3, 31), NanosPerDay / 2)) == Moment(Date(2023, 3, 31), 0)
  {
  }
}
