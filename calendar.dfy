/** Gregorian calendar dates as Python's datetime.date and calendar.monthrange
    see them: years 1 to 9999, month lengths with the leap-year rule, and the
    ordering of dates. */
module Calendar {
  import opened Options

  datatype Date = Date(year: int, month: int, day: int)

  /** datetime.MINYEAR and datetime.MAXYEAR. */
  const MinYear := 1
  const MaxYear := 9999

  /** calendar.isleap: every fourth year, except centuries not divisible by 400. */
  predicate IsLeap(year: int) {
    year % 4 == 0 && (year % 100 != 0 || year % 400 == 0)
  }

  /** calendar.monthrange(year, month)[1]: the number of days in the month. */
  function DaysInMonth(year: int, month: int): (n: int)
    requires 1 <= month <= 12
    ensures 28 <= n <= 31
    ensures n == 29 <==> month == 2 && IsLeap(year)
    ensures n == 28 <==> month == 2 && !IsLeap(year)
    ensures n == 30 <==> month == 4 || month == 6 || month == 9 || month == 11
  {
    if month == 2 then (if IsLeap(year) then 29 else 28)
    else if month == 4 || month == 6 || month == 9 || month == 11 then 30
    else 31
  }

  /** The dates datetime.date accepts. */
  predicate ValidDate(d: Date) {
    && MinYear <= d.year <= MaxYear
    && 1 <= d.month <= 12
    && 1 <= d.day <= DaysInMonth(d.year, d.month)
  }

  /** Python's "<" on dates: by year, then month, then day. */
  predicate DateLess(a: Date, b: Date) {
    || a.year < b.year
    || (a.year == b.year && a.month < b.month)
    || (a.year == b.year && a.month == b.month && a.day < b.day)
  }

  predicate DateLessOrEqual(a: Date, b: Date) {
    a == b || DateLess(a, b)
  }

  /** Date comparison is a strict total order: exactly one of a < b, a == b,
      b < a holds, and "<" is transitive. */
  lemma DateOrderIsTotal(a: Date, b: Date, c: Date)
    ensures DateLess(a, b) ==> !DateLess(b, a) && a != b
    ensures a == b || DateLess(a, b) || DateLess(b, a)
    ensures DateLess(a, b) && DateLess(b, c) ==> DateLess(a, c)
  {
  }

  /** DateFilter._tryCorrectDate: builds a date, clamping the day to the
      length of the month. None where Python raises: a month outside 1..12
      (calendar.IllegalMonthError), a year outside 1..9999 or a day below 1
      (ValueError from datetime.date). */
  function TryCorrectDate(year: int, month: int, day: int): (r: Option<Date>)
    ensures r.Some? <==> MinYear <= year <= MaxYear && 1 <= month <= 12 && 1 <= day
    ensures r.Some? ==> ValidDate(r.value)
    ensures r.Some? ==> r.value.year == year && r.value.month == month
    ensures r.Some? ==> r.value.day <= day
    ensures r.Some? && day <= DaysInMonth(year, month) ==> r.value.day == day
    ensures r.Some? && day > DaysInMonth(year, month) ==> r.value.day == DaysInMonth(year, month)
  {
    if !(1 <= month <= 12) then None
    else
      var maxDay := DaysInMonth(year, month);
      var correctDay := if day < maxDay then day else maxDay;
      if MinYear <= year <= MaxYear && 1 <= correctDay then Some(Date(year, month, correctDay))
      else None
  }

  /** Correction leaves a date that is already valid as it is. */
  lemma CorrectionKeepsValidDates(d: Date)
    requires ValidDate(d)
    ensures TryCorrectDate(d.year, d.month, d.day) == Some(d)
  {
  }

  /** Correction is idempotent: correcting a corrected date changes nothing. */
  lemma CorrectionIsIdempotent(year: int, month: int, day: int)
    requires TryCorrectDate(year, month, day).Some?
    ensures var d := TryCorrectDate(year, month, day).value;
            TryCorrectDate(d.year, d.month, d.day) == Some(d)
  {
    CorrectionKeepsValidDates(TryCorrectDate(year, month, day).value);
  }
}
