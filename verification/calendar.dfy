/** Calendar dates as Python's `datetime.date` has them: the proleptic
    Gregorian calendar, years 1 through 9999, with `toordinal` numbering
    0001-01-01 as day 1, and `date - timedelta(days=n)` stepping back `n` days. */
module Calendar {
  import opened Wrappers

  const MinYear: int := 1
  const MaxYear: int := 9999

  datatype Date = Date(year: int, month: int, day: int)

  /** `_is_leap`: every fourth year, except centuries not divisible by 400. */
  predicate IsLeap(year: int) {
    year % 4 == 0 && (year % 100 != 0 || year % 400 == 0)
  }

  /** `_days_in_month`: February has 29 days exactly in a leap year, and it
      is the only month shorter than 30 days. */
  function DaysInMonth(year: int, month: int): (n: int)
    requires 1 <= month <= 12
    ensures 28 <= n <= 31
    ensures n < 30 <==> month == 2
    ensures n == 29 <==> month == 2 && IsLeap(year)
  {
    if month == 2 then (if IsLeap(year) then 29 else 28)
    else if month == 4 || month == 6 || month == 9 || month == 11 then 30
    else 31
  }

  function DaysInYear(year: int): int {
    if IsLeap(year) then 366 else 365
  }

  /** A date `datetime.date(year, month, day)` accepts without ValueError. */
  predicate Valid(d: Date) {
    && MinYear <= d.year <= MaxYear
    && 1 <= d.month <= 12
    && 1 <= d.day <= DaysInMonth(d.year, d.month)
  }

  /** Strict chronological order: year, then month, then day. */
  predicate Before(a: Date, b: Date) {
    || a.year < b.year
    || (a.year == b.year && a.month < b.month)
    || (a.year == b.year && a.month == b.month && a.day < b.day)
  }

  /** `_days_before_year`: days in the years before `year`, in closed form. */
  function DaysBeforeYear(year: int): int
    requires year >= 1
  {
    var y := year - 1;
    y * 365 + y / 4 - y / 100 + y / 400
  }

  /** `_days_before_month`: the fixed table of a common year, plus one for
      months after February in a leap year. */
  function DaysBeforeMonth(year: int, month: int): int
    requires 1 <= month <= 12
  {
    var common :=
      if month == 1 then 0 else if month == 2 then 31 else if month == 3 then 59
      else if month == 4 then 90 else if month == 5 then 120 else if month == 6 then 151
      else if month == 7 then 181 else if month == 8 then 212 else if month == 9 then 243
      else if month == 10 then 273 else if month == 11 then 304 else 334;
    common + (if month > 2 && IsLeap(year) then 1 else 0)
  }

  /** `date.toordinal()`: 0001-01-01 is day 1, and every date of a year
      falls within that year's span of day numbers. */
  function ToOrdinal(d: Date): (n: int)
    requires Valid(d)
    ensures DaysBeforeYear(d.year) < n <= DaysBeforeYear(d.year) + DaysInYear(d.year)
  {
    DaysBeforeMonthBound(d.year, d.month);
    DaysBeforeYear(d.year) + DaysBeforeMonth(d.year, d.month) + d.day
  }

  const FirstDay: Date := Date(MinYear, 1, 1)

  /** The day before `d`, rolling back over month and year ends; `None` for
      0001-01-01, where `date - timedelta(days=1)` raises OverflowError. */
  function Pred(d: Date): (r: Option<Date>)
    requires Valid(d)
    ensures r.None? <==> d == FirstDay
    ensures r.Some? ==> Valid(r.value) && Before(r.value, d)
  {
    if d.day > 1 then Some(Date(d.year, d.month, d.day - 1))
    else if d.month > 1 then Some(Date(d.year, d.month - 1, DaysInMonth(d.year, d.month - 1)))
    else if d.year > MinYear then Some(Date(d.year - 1, 12, 31))
    else None
  }

  /** `d - timedelta(days=n)`, `None` when the result would precede 0001-01-01. */
  function SubDays(d: Date, n: nat): (r: Option<Date>)
    requires Valid(d)
    ensures r.Some? ==> Valid(r.value)
    decreases n
  {
    if n == 0 then Some(d)
    else match SubDays(d, n - 1)
      case None => None
      case Some(p) => Pred(p)
  }

  /** Closed-form year step: one more year adds that year's length. */
  lemma DaysBeforeNextYear(year: int)
    requires year >= 1
    ensures DaysBeforeYear(year + 1) == DaysBeforeYear(year) + DaysInYear(year)
  {
    var y := year;
    assert y / 4 - (y - 1) / 4 == (if y % 4 == 0 then 1 else 0);
    assert y / 100 - (y - 1) / 100 == (if y % 100 == 0 then 1 else 0);
    assert y / 400 - (y - 1) / 400 == (if y % 400 == 0 then 1 else 0);
  }

  /** Stepping back one day lowers the ordinal by exactly one. */
  lemma PredOrdinal(d: Date)
    requires Valid(d) && d != FirstDay
    ensures ToOrdinal(Pred(d).value) == ToOrdinal(d) - 1
  {
    if d.day == 1 && d.month == 1 {
      DaysBeforeNextYear(d.year - 1);
    }
  }

  /** `d - timedelta(days=n)` succeeds exactly when the ordinal stays
      positive, and then lands on the date whose ordinal is `n` lower. */
  lemma {:induction false} SubDaysOrdinal(d: Date, n: nat)
    requires Valid(d)
    ensures SubDays(d, n).Some? <==> n < ToOrdinal(d)
    ensures SubDays(d, n).Some? ==> ToOrdinal(SubDays(d, n).value) == ToOrdinal(d) - n
    decreases n
  {
    if n > 0 {
      SubDaysOrdinal(d, n - 1);
      match SubDays(d, n - 1)
      case None =>
      case Some(p) =>
        if p != FirstDay {
          PredOrdinal(p);
        }
    }
  }

  /** Each further day back is strictly earlier: `SubDays(d, n)` precedes
      `SubDays(d, m)` whenever `m < n` and both exist. */
  lemma {:induction false} SubDaysDecreasing(d: Date, m: nat, n: nat)
    requires Valid(d) && m < n && SubDays(d, n).Some?
    ensures SubDays(d, m).Some?
    ensures Before(SubDays(d, n).value, SubDays(d, m).value)
    decreases n - m
  {
    var p := SubDays(d, n - 1);
    assert p.Some?;
    if m < n - 1 {
      SubDaysDecreasing(d, m, n - 1);
    }
  }

  lemma DaysBeforeMonthBound(year: int, month: int)
    requires 1 <= month <= 12
    ensures DaysBeforeMonth(year, month) + DaysInMonth(year, month) <= DaysInYear(year)
    ensures month < 12 ==> DaysBeforeMonth(year, month + 1) == DaysBeforeMonth(year, month) + DaysInMonth(year, month)
  {
  }

  /** Later years start later. */
  lemma {:induction false} DaysBeforeYearMonotone(a: int, b: int)
    requires 1 <= a <= b
    ensures DaysBeforeYear(a) + DaysInYear(a) * (if a < b then 1 else 0) <= DaysBeforeYear(b)
    decreases b - a
  {
    if a < b {
      DaysBeforeNextYear(a);
      if a + 1 < b {
        DaysBeforeYearMonotone(a + 1, b);
      }
    }
  }

  /** The ordinal respects chronological order. */
  lemma OrdinalMonotone(a: Date, b: Date)
    requires Valid(a) && Valid(b) && Before(a, b)
    ensures ToOrdinal(a) < ToOrdinal(b)
  {
    DaysBeforeMonthBound(a.year, a.month);
    if a.year < b.year {
      DaysBeforeYearMonotone(a.year, b.year);
    } else if a.month < b.month {
      assert DaysBeforeMonth(a.year, a.month) + DaysInMonth(a.year, a.month) <= DaysBeforeMonth(b.year, b.month);
    }
  }

  /** Different valid dates have different ordinals, so `SubDays` lands on
      the one date that `date.fromordinal(d.toordinal() - n)` denotes. */
  lemma OrdinalInjective(a: Date, b: Date)
    requires Valid(a) && Valid(b) && ToOrdinal(a) == ToOrdinal(b)
    ensures a == b
  {
    if Before(a, b) {
      OrdinalMonotone(a, b);
    } else if Before(b, a) {
      OrdinalMonotone(b, a);
    }
  }
}
