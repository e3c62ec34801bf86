/** Calendar dates as `datetime.strptime(s, "%Y-%m-%d")` accepts them: a year
    between `datetime.MINYEAR` (1) and `datetime.MAXYEAR` (9999), a month
    between 1 and 12 and a day that exists in that month of the proleptic
    Gregorian calendar. */
module Calendar {

  datatype Date = Date(year: int, month: int, day: int)

  const MinYear: int := 1
  const MaxYear: int := 9999

  /** Gregorian leap years: divisible by 4, except centuries not divisible by 400. */
  predicate IsLeapYear(year: int) {
    year % 4 == 0 && (year % 100 != 0 || year % 400 == 0)
  }

  function DaysInMonth(year: int, month: int): (n: int)
    requires 1 <= month <= 12
    ensures 28 <= n <= 31
    ensures month == 2 ==> (n == 29 <==> IsLeapYear(year))
  {
    if month == 2 then (if IsLeapYear(year) then 29 else 28)
    else if month == 4 || month == 6 || month == 9 || month == 11 then 30
    else 31
  }

  /** The dates `datetime` accepts: a year, month and day in range. */
  predicate IsValidDate(d: Date)
    ensures IsValidDate(d) ==> 1 <= d.day <= 31
    ensures IsValidDate(d) && d.month == 2 && d.day == 29 ==> IsLeapYear(d.year)
  {
    && MinYear <= d.year <= MaxYear
    && 1 <= d.month <= 12
    && 1 <= d.day <= DaysInMonth(d.year, d.month)
  }

  /** The 29th of February exists exactly in leap years. */
  lemma LeapDay(year: int)
    requires MinYear <= year <= MaxYear
    ensures IsValidDate(Date(year, 2, 29)) <==> IsLeapYear(year)
  {
  }

  /** Days 1 to 28 exist in every month of every supported year, and no month
      has a 32nd day, a 13th month or a month 0. */
  lemma DayBounds(d: Date)
    ensures MinYear <= d.year <= MaxYear && 1 <= d.month <= 12 && 1 <= d.day <= 28 ==> IsValidDate(d)
    ensures d.day > 31 || d.day < 1 || d.month > 12 || d.month < 1 ==> !IsValidDate(d)
  {
  }
}
