/**
 * Proleptic Gregorian dates with the behaviour of Python's `datetime.date`:
 * years 1 to 9999, `replace` rejects an impossible day or year, and adding a
 * `timedelta` past year 9999 overflows.
 */
module Calendar {
  import opened Wrappers

  const MinYear: int := 1
  const MaxYear: int := 9999

  datatype Date = Date(year: int, month: int, day: int)

  /** The exceptions Python's date operations raise. */
  datatype DateError =
    | DayOutOfRange   // ValueError: day is out of range for month
    | YearOutOfRange  // ValueError: year is out of range
    | DateOverflow    // OverflowError: date value out of range (date + timedelta)

  predicate IsLeapYear(y: int) {
    y % 4 == 0 && (y % 100 != 0 || y % 400 == 0)
  }

  function DaysInMonth(y: int, m: int): (n: int)
    requires 1 <= m <= 12
    ensures 28 <= n <= 31
    ensures n == 28 <==> m == 2 && !IsLeapYear(y)
  {
    if m == 2 then (if IsLeapYear(y) then 29 else 28)
    else if m == 4 || m == 6 || m == 9 || m == 11 then 30
    else 31
  }

  /** A real day of the calendar, in any year. */
  predicate WellFormed(d: Date) {
    1 <= d.month <= 12 && 1 <= d.day <= DaysInMonth(d.year, d.month)
  }

  /** A value Python's `date` can hold. */
  predicate ValidDate(d: Date) {
    MinYear <= d.year <= MaxYear && WellFormed(d)
  }

  /** Python's `a < b` on dates: chronological, that is lexicographic on (year, month, day). */
  predicate Before(a: Date, b: Date) {
    a.year < b.year || (a.year == b.year && (a.month < b.month || (a.month == b.month && a.day < b.day)))
  }

  /** The first day of the month after `d`'s month; December rolls to January of the next year. */
  function FirstOfNextMonth(d: Date): (r: Date)
    requires WellFormed(d)
    ensures WellFormed(r) && Before(d, r) && r.day == 1
    ensures d.month < 12 ==> r.year == d.year && r.month == d.month + 1
    ensures d.month == 12 ==> r.year == d.year + 1 && r.month == 1
  {
    if d.month < 12 then Date(d.year, d.month + 1, 1) else Date(d.year + 1, 1, 1)
  }

  function NextDay(d: Date): (r: Date)
    requires WellFormed(d)
    ensures WellFormed(r) && Before(d, r)
    ensures d.day < DaysInMonth(d.year, d.month) ==> r == Date(d.year, d.month, d.day + 1)
    ensures d.day == DaysInMonth(d.year, d.month) ==> r == FirstOfNextMonth(d)
  {
    if d.day < DaysInMonth(d.year, d.month) then Date(d.year, d.month, d.day + 1)
    else FirstOfNextMonth(d)
  }

  /** `d + timedelta(days=n)`, before the range check on the year. */
  function AddDays(d: Date, n: nat): (r: Date)
    requires WellFormed(d)
    ensures WellFormed(r)
    ensures n > 0 ==> Before(d, r)
    decreases n
  {
    if n == 0 then d else AddDays(NextDay(d), n - 1)
  }

  /** Python's `d.replace(day=day)`. */
  function ReplaceDay(d: Date, day: int): (r: Result<Date, DateError>)
    requires ValidDate(d)
    ensures r.Success? <==> 1 <= day <= DaysInMonth(d.year, d.month)
    ensures r.Success? ==> ValidDate(r.value) && r.value == Date(d.year, d.month, day)
    ensures r.Failure? ==> r.error == DayOutOfRange
  {
    if 1 <= day <= DaysInMonth(d.year, d.month) then Success(Date(d.year, d.month, day))
    else Failure(DayOutOfRange)
  }

  /** Python's `d.replace(year=year)`: the year is range-checked first, then the day against the new month length. */
  function ReplaceYear(d: Date, year: int): (r: Result<Date, DateError>)
    requires ValidDate(d)
    ensures r.Success? <==> MinYear <= year <= MaxYear && d.day <= DaysInMonth(year, d.month)
    ensures r.Success? ==> ValidDate(r.value) && r.value == Date(year, d.month, d.day)
  {
    if !(MinYear <= year <= MaxYear) then Failure(YearOutOfRange)
    else if d.day > DaysInMonth(year, d.month) then Failure(DayOutOfRange)
    else Success(Date(year, d.month, d.day))
  }

  /** Before is a strict order: irreflexive and transitive, and any two distinct dates are comparable. */
  lemma BeforeIsStrictTotalOrder(a: Date, b: Date, c: Date)
    ensures !Before(a, a)
    ensures Before(a, b) && Before(b, c) ==> Before(a, c)
    ensures a != b ==> Before(a, b) || Before(b, a)
    ensures !(Before(a, b) && Before(b, a))
  {
  }

  /** Adding days that stay inside the month only moves the day number. */
  lemma {:induction false} AddDaysWithinMonth(d: Date, n: nat)
    requires WellFormed(d)
    requires d.day + n <= DaysInMonth(d.year, d.month)
    ensures AddDays(d, n) == Date(d.year, d.month, d.day + n)
    decreases n
  {
    if n > 0 {
      AddDaysWithinMonth(NextDay(d), n - 1);
    }
  }

  /** Adding days that run past the month's end, by at most 28, lands in the following month. */
  lemma {:induction false} AddDaysIntoNextMonth(d: Date, n: nat)
    requires WellFormed(d)
    requires DaysInMonth(d.year, d.month) < d.day + n <= DaysInMonth(d.year, d.month) + 28
    ensures AddDays(d, n) == Date(FirstOfNextMonth(d).year, FirstOfNextMonth(d).month,
                                  d.day + n - DaysInMonth(d.year, d.month))
    decreases n
  {
    var f := FirstOfNextMonth(d);
    if d.day == DaysInMonth(d.year, d.month) {
      assert NextDay(d) == f;
      AddDaysWithinMonth(f, n - 1);
    } else {
      AddDaysIntoNextMonth(NextDay(d), n - 1);
    }
  }

  /**
   * The next-month technique of the commission engine: from the 28th of any
   * month (28 to 31 days long), four days later is day 1 to 4 of the
   * following month.
   */
  lemma TwentyEighthPlusFour(d: Date)
    requires WellFormed(d) && d.day == 28
    ensures AddDays(d, 4).year == FirstOfNextMonth(d).year
    ensures AddDays(d, 4).month == FirstOfNextMonth(d).month
    ensures 1 <= AddDays(d, 4).day <= 4
    ensures AddDays(d, 4).day == 32 - DaysInMonth(d.year, d.month)
  {
    AddDaysIntoNextMonth(d, 4);
  }

  /** A leap year is never followed by a leap year, so a 29 February has no counterpart one year later. */
  lemma LeapYearNotFollowedByLeapYear(y: int)
    requires IsLeapYear(y)
    ensures !IsLeapYear(y + 1)
    ensures DaysInMonth(y + 1, 2) == 28
  {
    assert (y + 1) % 4 == 1;
  }
}
