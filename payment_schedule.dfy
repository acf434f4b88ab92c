/**
 * The expected payment date of a commission line (commission/services.py,
 * lines 28-38), with the current date as an explicit parameter.
 */
module PaymentSchedule {
  import opened Wrappers
  import opened Calendar
  import opened Models

  /** Why no payment date could be produced: an exception of the date arithmetic, or a null field. */
  datatype ScheduleError =
    | DateRejected(cause: DateError)  // ValueError or OverflowError from the date library
    | MissingDayOfMonth               // TypeError: comparing an int with None
    | MissingSpecificDate             // TypeError: comparing None with a date

  function Lift(r: Result<Date, DateError>): Result<Date, ScheduleError> {
    match r
    case Success(d) => Success(d)
    case Failure(e) => Failure(DateRejected(e))
  }

  /**
   * Day `day` of this month when that day is not yet past, else of the month
   * after, found as the 28th of this month plus four days.
   */
  function DayOfMonthDate(day: int, today: Date): Result<Date, ScheduleError>
    requires ValidDate(today)
  {
    if today.day <= day then Lift(ReplaceDay(today, day))
    else
      var twentyEighth :- Lift(ReplaceDay(today, 28));
      var nextMonth := AddDays(twentyEighth, 4);
      if nextMonth.year > MaxYear then Failure(DateRejected(DateOverflow))
      else Lift(ReplaceDay(nextMonth, day))
  }

  /** The given date when it is today or later, else the same month and day one year on. */
  function AnnualDate(date: Date, today: Date): Result<Date, ScheduleError>
    requires ValidDate(date)
  {
    if Before(date, today) then Lift(ReplaceYear(date, date.year + 1)) else Success(date)
  }

  /** The expected payment date for `terms`; every type other than DAY_OF_MONTH is read as SPECIFIC_DATE. */
  function ExpectedPaymentDate(terms: PaymentTerms, today: Date): Result<Date, ScheduleError>
    requires ValidDate(today) && StoredTerms(terms)
  {
    match terms.paymentType
    case DayOfMonth =>
      if terms.dayOfMonth.None? then Failure(MissingDayOfMonth)
      else DayOfMonthDate(terms.dayOfMonth.value, today)
    case SpecificDate =>
      if terms.specificDate.None? then Failure(MissingSpecificDate)
      else AnnualDate(terms.specificDate.value, today)
  }

  /** When the day is still ahead this month, the result is that day of this month, if the month has it. */
  lemma DayOfMonthThisMonth(day: int, today: Date)
    requires ValidDate(today) && today.day <= day
    ensures DayOfMonthDate(day, today).Success? <==> day <= DaysInMonth(today.year, today.month)
    ensures DayOfMonthDate(day, today).Success? ==>
      DayOfMonthDate(day, today).value == Date(today.year, today.month, day)
    ensures DayOfMonthDate(day, today).Failure? ==>
      DayOfMonthDate(day, today).error == DateRejected(DayOutOfRange)
  {
  }

  /**
   * When the day is already past, the result is that day of the following
   * month (January of the next year after December); it fails when the
   * following month lacks that day or lies beyond year 9999.
   */
  lemma DayOfMonthFollowingMonth(day: int, today: Date)
    requires ValidDate(today) && today.day > day
    ensures var next := FirstOfNextMonth(today);
      DayOfMonthDate(day, today).Success? <==>
        next.year <= MaxYear && 1 <= day <= DaysInMonth(next.year, next.month)
    ensures DayOfMonthDate(day, today).Success? ==>
      DayOfMonthDate(day, today).value == Date(FirstOfNextMonth(today).year, FirstOfNextMonth(today).month, day)
    ensures FirstOfNextMonth(today).year > MaxYear ==>
      DayOfMonthDate(day, today) == Failure(DateRejected(DateOverflow))
  {
    TwentyEighthPlusFour(Date(today.year, today.month, 28));
  }

  /** A DAY_OF_MONTH result is a real date, on the requested day, and not before today. */
  lemma DayOfMonthNotBeforeToday(day: int, today: Date)
    requires ValidDate(today)
    ensures DayOfMonthDate(day, today).Success? ==>
      var r := DayOfMonthDate(day, today).value;
      ValidDate(r) && r.day == day && !Before(r, today)
  {
    if today.day > day {
      DayOfMonthFollowingMonth(day, today);
    }
  }

  /** A date that is today or later is kept as it is. */
  lemma AnnualDateNotPast(date: Date, today: Date)
    requires ValidDate(date) && !Before(date, today)
    ensures AnnualDate(date, today) == Success(date)
  {
  }

  /**
   * A past date moves exactly one year on, keeping month and day; that fails
   * for a 29 February (the next year is never a leap year) and in year 9999.
   */
  lemma AnnualDatePast(date: Date, today: Date)
    requires ValidDate(date) && Before(date, today)
    ensures AnnualDate(date, today).Success? <==>
      date.year < MaxYear && !(date.month == 2 && date.day == 29)
    ensures AnnualDate(date, today).Success? ==>
      AnnualDate(date, today).value == Date(date.year + 1, date.month, date.day)
  {
    if date.month == 2 && date.day == 29 {
      LeapYearNotFollowedByLeapYear(date.year);
    }
  }

  /** The year is advanced only once: a date more than a year old still yields a date before today. */
  lemma AnnualDateCanStayInPast()
    ensures AnnualDate(Date(2020, 1, 1), Date(2026, 10, 15)) == Success(Date(2021, 1, 1))
    ensures Before(Date(2021, 1, 1), Date(2026, 10, 15))
  {
  }

  /**
   * For every input: a date more than a year in the past is moved one year
   * on and no further, so the result is still before today.
   */
  lemma AnnualDateStaysInPast(date: Date, today: Date)
    requires ValidDate(date) && Before(date, today)
    requires Before(Date(date.year + 1, date.month, date.day), today)
    ensures AnnualDate(date, today).Success? ==> Before(AnnualDate(date, today).value, today)
  {
    AnnualDatePast(date, today);
  }

  /**
   * The only failures of well-formed terms are the date library's; a null
   * field selected by the payment type fails with the matching TypeError.
   */
  lemma ExpectedPaymentDateFailures(terms: PaymentTerms, today: Date)
    requires ValidDate(today) && StoredTerms(terms)
    ensures WellFormedTerms(terms) && ExpectedPaymentDate(terms, today).Failure? ==>
      ExpectedPaymentDate(terms, today).error.DateRejected?
    ensures terms.paymentType == DayOfMonth && terms.dayOfMonth.None? ==>
      ExpectedPaymentDate(terms, today) == Failure(MissingDayOfMonth)
    ensures terms.paymentType == SpecificDate && terms.specificDate.None? ==>
      ExpectedPaymentDate(terms, today) == Failure(MissingSpecificDate)
  {
  }

  /** Any payment date produced is a real date, and a DAY_OF_MONTH date is not before today. */
  lemma ExpectedPaymentDateIsValid(terms: PaymentTerms, today: Date)
    requires ValidDate(today) && StoredTerms(terms)
    ensures ExpectedPaymentDate(terms, today).Success? ==> ValidDate(ExpectedPaymentDate(terms, today).value)
    ensures ExpectedPaymentDate(terms, today).Success? && terms.paymentType == DayOfMonth ==>
      !Before(ExpectedPaymentDate(terms, today).value, today)
      && ExpectedPaymentDate(terms, today).value.day == terms.dayOfMonth.value
  {
    match terms.paymentType
    case DayOfMonth =>
      if terms.dayOfMonth.Some? {
        DayOfMonthNotBeforeToday(terms.dayOfMonth.value, today);
      }
    case SpecificDate =>
      if terms.specificDate.Some? && Before(terms.specificDate.value, today) {
        AnnualDatePast(terms.specificDate.value, today);
      }
  }
}
