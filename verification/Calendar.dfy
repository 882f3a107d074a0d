// Month arithmetic, written twice in the pipeline: F3 and F4 derive a start date from a month-end
// (worker/report_classification.py, worker/statement_extraction.py), and F6.1 checks it the other
// way round (worker/financial_validation.py). Both are modelled as written, with the errors Python's
// date raises outside the years 1..9999.
module Calendar {
  import opened Prelude

  datatype Date = Date(year: int, month: int, day: int)

  const MIN_YEAR := 1
  const MAX_YEAR := 9999

  predicate Leap(y: int) {
    y % 4 == 0 && (y % 100 != 0 || y % 400 == 0)
  }

  /** calendar.monthrange(y, m)[1] */
  function MonthLength(y: int, m: int): (n: int)
    ensures 28 <= n <= 31
  {
    if m == 2 then (if Leap(y) then 29 else 28)
    else if m == 4 || m == 6 || m == 9 || m == 11 then 30
    else 31
  }

  predicate Valid(d: Date) {
    MIN_YEAR <= d.year <= MAX_YEAR && 1 <= d.month <= 12 && 1 <= d.day <= MonthLength(d.year, d.month)
  }

  predicate IsMonthEnd(d: Date) {
    d.day == MonthLength(d.year, d.month)
  }

  predicate Before(a: Date, b: Date) {
    a.year < b.year || (a.year == b.year && (a.month < b.month || (a.month == b.month && a.day < b.day)))
  }

  /** Months since year 0: the position of a date's month on one straight line. */
  function MonthIndex(d: Date): int {
    12 * d.year + d.month - 1
  }

  /** `d + timedelta(days=1)`; None is Python's OverflowError after 9999-12-31. */
  function NextDay(d: Date): Option<Date>
    requires Valid(d)
  {
    if d.day < MonthLength(d.year, d.month) then Some(Date(d.year, d.month, d.day + 1))
    else if d.month < 12 then Some(Date(d.year, d.month + 1, 1))
    else if d.year < MAX_YEAR then Some(Date(d.year + 1, 1, 1))
    else None
  }

  /** F6.1's _add_months: keep the day, clamped to the month; None is date()'s ValueError. */
  function AddMonths(d: Date, n: int): Option<Date>
    requires Valid(d)
  {
    var shifted := d.month - 1 + n;
    var y, m := d.year + shifted / 12, shifted % 12 + 1;
    if MIN_YEAR <= y <= MAX_YEAR
    then Some(Date(y, m, if d.day <= MonthLength(y, m) then d.day else MonthLength(y, m)))
    else None
  }

  /** F3's _add_months_month_end: the last day of the month n months away. */
  function AddMonthsMonthEnd(d: Date, n: int): Option<Date>
    requires Valid(d)
  {
    var shifted := d.month - 1 + n;
    var y, m := d.year + shifted / 12, shifted % 12 + 1;
    if MIN_YEAR <= y <= MAX_YEAR then Some(Date(y, m, MonthLength(y, m))) else None
  }

  /** What F3 and F4 store as start_date: _add_months_month_end(end, -n) + 1 day. */
  function DerivedStart(end: Date, n: int): Option<Date>
    requires Valid(end)
  {
    match AddMonthsMonthEnd(end, -n)
    case None => None
    case Some(d) => if Valid(d) then NextDay(d) else None
  }

  /** What F6.1 compares it with: _add_months(end + 1 day, -n). */
  function CheckedStart(end: Date, n: int): Option<Date>
    requires Valid(end)
  {
    match NextDay(end)
    case None => None
    case Some(d) => if Valid(d) then AddMonths(d, -n) else None
  }

  // ---------------------------------------------------------------- the days, counted

  /** date.toordinal(): the day's number in the proleptic Gregorian calendar. */
  function Ordinal(d: Date): int {
    DaysBeforeYear(d.year) + DaysBeforeMonth(d.year, d.month) + d.day
  }

  function DaysBeforeYear(y: int): int {
    365 * (y - 1) + (y - 1) / 4 - (y - 1) / 100 + (y - 1) / 400
  }

  function DaysBeforeMonth(y: int, m: int): int {
    if m <= 1 then 0 else DaysBeforeMonth(y, m - 1) + MonthLength(y, m - 1)
  }

  lemma {:induction false} YearLength(y: int)
    ensures DaysBeforeYear(y + 1) == DaysBeforeYear(y) + (if Leap(y) then 366 else 365)
  {
    NextQuotient(y - 1, 4);
    NextQuotient(y - 1, 100);
    NextQuotient(y - 1, 400);
    CenturiesAreQuarters(y);
  }

  lemma {:induction false} NextQuotient(x: int, d: int)
    requires d in {4, 100, 400}
    ensures (x + 1) / d == x / d + (if (x + 1) % d == 0 then 1 else 0)
  {
  }

  lemma {:induction false} CenturiesAreQuarters(y: int)
    ensures y % 400 == 0 ==> y % 100 == 0
    ensures y % 100 == 0 ==> y % 4 == 0
  {
  }

  lemma {:induction false} DaysInYear(y: int)
    ensures DaysBeforeMonth(y, 12) + MonthLength(y, 12) == if Leap(y) then 366 else 365
  {
    assert DaysBeforeMonth(y, 1) == 0;
    assert DaysBeforeMonth(y, 2) == 31;
    assert DaysBeforeMonth(y, 3) == 31 + MonthLength(y, 2);
    assert DaysBeforeMonth(y, 5) == DaysBeforeMonth(y, 4) + 30 == DaysBeforeMonth(y, 3) + 61;
    assert DaysBeforeMonth(y, 7) == DaysBeforeMonth(y, 6) + 30 == DaysBeforeMonth(y, 5) + 61;
    assert DaysBeforeMonth(y, 9) == DaysBeforeMonth(y, 8) + 31 == DaysBeforeMonth(y, 7) + 62;
    assert DaysBeforeMonth(y, 11) == DaysBeforeMonth(y, 10) + 31 == DaysBeforeMonth(y, 9) + 61;
  }

  /** The carry over month and year ends is exactly one day, leap years included. */
  lemma {:induction false} NextDayIsOneDayLater(d: Date)
    requires Valid(d)
    ensures NextDay(d) == None <==> d == Date(MAX_YEAR, 12, 31)
    ensures NextDay(d).Some? ==> Valid(NextDay(d).value) && Ordinal(NextDay(d).value) == Ordinal(d) + 1
  {
    if d.day == MonthLength(d.year, d.month) && d.month == 12 {
      YearLength(d.year);
      DaysInYear(d.year);
    }
  }

  // ---------------------------------------------------------------- the two algorithms agree

  /** Both derivations land on the first day of the month n - 1 months before the end's month. */
  lemma {:induction false} CheckedStartIsFirstOfMonth(end: Date, n: int)
    requires Valid(end) && IsMonthEnd(end)
    ensures CheckedStart(end, n).Some? <==>
            end != Date(MAX_YEAR, 12, 31) && 12 * MIN_YEAR <= MonthIndex(end) + 1 - n < 12 * (MAX_YEAR + 1)
    ensures CheckedStart(end, n).Some? ==>
            var s := CheckedStart(end, n).value;
            Valid(s) && s.day == 1 && MonthIndex(s) == MonthIndex(end) + 1 - n
  {
    if end != Date(MAX_YEAR, 12, 31) {
      var d := NextDay(end).value;
      var shifted := d.month - 1 - n;
      assert shifted == 12 * (shifted / 12) + shifted % 12;
    }
  }

  lemma {:induction false} DerivedStartIsFirstOfMonth(end: Date, n: int)
    requires Valid(end)
    ensures DerivedStart(end, n).Some? <==> 12 * MIN_YEAR <= MonthIndex(end) - n < 12 * (MAX_YEAR + 1) - 1
    ensures DerivedStart(end, n).Some? ==>
            var s := DerivedStart(end, n).value;
            Valid(s) && s.day == 1 && MonthIndex(s) == MonthIndex(end) + 1 - n
  {
    var shifted := end.month - 1 - n;
    assert shifted == 12 * (shifted / 12) + shifted % 12;
  }

  /** The calendar theorem: on month ends the two forms agree wherever both are defined; F6.1's form
      alone is defined exactly when the period starts on 0001-01-01, F3's alone exactly at 9999-12-31. */
  lemma {:induction false} CalendarsAgree(end: Date, n: int)
    requires Valid(end) && IsMonthEnd(end) && n >= 1
    ensures DerivedStart(end, n).Some? && CheckedStart(end, n).Some? ==> DerivedStart(end, n) == CheckedStart(end, n)
    ensures DerivedStart(end, n).Some? && CheckedStart(end, n).None? <==>
            end == Date(MAX_YEAR, 12, 31) && n <= MonthIndex(end) - 12
    ensures CheckedStart(end, n).Some? && DerivedStart(end, n).None? <==>
            CheckedStart(end, n) == Some(Date(MIN_YEAR, 1, 1))
  {
    CheckedStartIsFirstOfMonth(end, n);
    DerivedStartIsFirstOfMonth(end, n);
  }

  // ---------------------------------------------------------------- month-range headers

  /** parse_month_range after the header text is split: 'Apr - Jun' with the column's year. */
  function MonthRange(m1: int, m2: int, y: int): Option<(Date, Date, int)>
    requires 1 <= m1 <= 12 && 1 <= m2 <= 12 && MIN_YEAR <= y <= MAX_YEAR
  {
    var startYear := if m1 <= m2 then y else y - 1;
    if startYear < MIN_YEAR then None
    else Some((Date(startYear, m1, 1), Date(y, m2, MonthLength(y, m2)), (m2 - m1) % 12 + 1))
  }

  /** A start date F6.1 accepts for a duration column: not after the end, and equal to its own form. */
  predicate StartConsistent(start: Date, end: Date, months: int)
    requires Valid(end)
  {
    !Before(end, start) && CheckedStart(end, months) == Some(start)
  }

  lemma {:induction false} MonthIndexOrders(a: Date, b: Date)
    requires Valid(a) && Valid(b) && MonthIndex(a) <= MonthIndex(b) && a.day == 1
    ensures !Before(b, a)
  {
  }

  /** No start date written by F3, by F4 or by a month-range header is rejected by F6.1. The only
      exclusion is the calendar's last day, where F6.1's own `end + 1 day` overflows. */
  lemma {:induction false} DerivedStartsAreAccepted(end: Date, months: int)
    requires Valid(end) && IsMonthEnd(end) && months >= 1 && DerivedStart(end, months).Some?
    ensures StartConsistent(DerivedStart(end, months).value, end, months) <==> end != Date(MAX_YEAR, 12, 31)
  {
    CalendarsAgree(end, months);
    CheckedStartIsFirstOfMonth(end, months);
    DerivedStartIsFirstOfMonth(end, months);
    MonthIndexOrders(DerivedStart(end, months).value, end);
  }

  lemma {:induction false} MonthRangesAreAccepted(m1: int, m2: int, y: int)
    requires 1 <= m1 <= 12 && 1 <= m2 <= 12 && MIN_YEAR <= y <= MAX_YEAR && MonthRange(m1, m2, y).Some?
    ensures var (start, end, months) := MonthRange(m1, m2, y).value;
            && Valid(start) && Valid(end) && IsMonthEnd(end) && 1 <= months <= 12
            && MonthIndex(end) - MonthIndex(start) == months - 1
            && (StartConsistent(start, end, months) <==> end != Date(MAX_YEAR, 12, 31))
  {
    var (start, end, months) := MonthRange(m1, m2, y).value;
    CheckedStartIsFirstOfMonth(end, months);
    MonthIndexOrders(start, end);
  }
}
