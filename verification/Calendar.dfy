/** The Gregorian calendar with pandas' month arithmetic: the day is clamped to the end of the target month. */
module Calendar {

  predicate Leap(year: int) {
    year % 4 == 0 && (year % 100 != 0 || year % 400 == 0)
  }

  function DaysIn(year: int, month: int): (days: int)
    ensures 28 <= days <= 31
  {
    if month == 2 then (if Leap(year) then 29 else 28)
    else if month == 4 || month == 6 || month == 9 || month == 11 then 30
    else 31
  }

  datatype RawDate = Date(year: int, month: int, day: int) {
    predicate Valid() {
      1 <= month <= 12 && 1 <= day <= DaysIn(year, month)
    }

    /** Months since year 0. */
    function Index(): int { 12 * year + month - 1 }

    predicate MonthEnd() { day == DaysIn(year, month) }
  }

  type Date = d: RawDate | d.Valid() witness RawDate.Date(2000, 1, 1)

  predicate Before(a: Date, b: Date) {
    a.year < b.year || (a.year == b.year && (a.month < b.month || (a.month == b.month && a.day < b.day)))
  }

  predicate AtMost(a: Date, b: Date) { !Before(b, a) }

  /** d + pd.DateOffset(months=k), also for negative k. */
  function AddMonths(d: Date, k: int): Date {
    var total := d.Index() + k;
    var year, month := total / 12, total % 12 + 1;
    var days := DaysIn(year, month);
    RawDate.Date(year, month, if d.day <= days then d.day else days)
  }

  /** The whole months from the month of a to the month of b; days are ignored (ead_engine.py:31-34). */
  function MonthsBetween(a: Date, b: Date): int {
    (b.year - a.year) * 12 + (b.month - a.month)
  }

  /** Dates are ordered by month, then by day. */
  lemma BeforeByIndex(a: Date, b: Date)
    ensures Before(a, b) <==> a.Index() < b.Index() || (a.Index() == b.Index() && a.day < b.day)
    ensures a.Index() == b.Index() <==> a.year == b.year && a.month == b.month
  {}

  lemma AddMonthsIndex(d: Date, k: int)
    ensures AddMonths(d, k).Index() == d.Index() + k
    ensures AddMonths(d, k).day <= d.day
    ensures k == 0 ==> AddMonths(d, k) == d
    ensures MonthsBetween(d, AddMonths(d, k)) == k
  {}

  lemma LeapYears(year: int)
    ensures Leap(year) <==> (year % 4 == 0 && year % 100 != 0) || year % 400 == 0
  {
    if year % 400 == 0 {
      assert year == 4 * (100 * (year / 400));
    }
  }

  /** The Gregorian month lengths, leap years included. */
  lemma MonthLengths(year: int)
    ensures DaysIn(year, 1) == DaysIn(year, 3) == DaysIn(year, 5) == DaysIn(year, 7) == DaysIn(year, 8) == DaysIn(year, 10) == DaysIn(year, 12) == 31
    ensures DaysIn(year, 4) == DaysIn(year, 6) == DaysIn(year, 9) == DaysIn(year, 11) == 30
    ensures DaysIn(year, 2) == if (year % 4 == 0 && year % 100 != 0) || year % 400 == 0 then 29 else 28
  {
    hide Leap;
    LeapYears(year);
  }

  /** The clamped shift, for every date and every number of months: k months on, on the same day or the month's last. */
  lemma AddMonthsExact(d: Date, k: int)
    ensures var r := AddMonths(d, k);
            && 12 * r.year + r.month == 12 * d.year + d.month + k
            && r.day == if d.day <= DaysIn(r.year, r.month) then d.day else DaysIn(r.year, r.month)
  {
    AddMonthsIndex(d, k);
  }

  /** Later offsets give strictly later dates, whatever the clamping. */
  lemma AddMonthsIncreases(d: Date, k: int, l: int)
    requires k < l
    ensures Before(AddMonths(d, k), AddMonths(d, l))
  {
    AddMonthsIndex(d, k);
    AddMonthsIndex(d, l);
    BeforeByIndex(AddMonths(d, k), AddMonths(d, l));
  }

  /** What comes no later than m keeps everything before it no later than m. */
  lemma EarlierAtMost(d: Date, k: int, l: int, m: Date)
    requires k < l && AtMost(AddMonths(d, l), m)
    ensures AtMost(AddMonths(d, k), m)
  {
    hide AddMonths;
    AddMonthsIncreases(d, k, l);
  }

  /** Months add up along any chain of three dates. */
  lemma MonthsBetweenAdds(a: Date, b: Date, c: Date)
    ensures MonthsBetween(a, c) == MonthsBetween(a, b) + MonthsBetween(b, c)
    ensures MonthsBetween(a, b) == b.Index() - a.Index()
  {}

  /** Which dates one month back land on r: those of the next month with r's day, or any later day when r is a month end. */
  lemma ShiftBackLandsOn(s: Date, r: Date)
    ensures AddMonths(s, -1) == r
       <==> s.Index() == r.Index() + 1 && (s.day == r.day || (r.MonthEnd() && s.day > r.day))
  {
    AddMonthsIndex(s, -1);
    BeforeByIndex(AddMonths(s, -1), r);
  }
}
