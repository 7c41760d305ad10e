/** The three filters that keep a range: production year, the user's own
    rating, and the date of rating. Each reads its two bounds from the widgets,
    repairs unusable input, makes sure "from" does not exceed "to", writes the
    repaired bounds back to the widgets and installs the range as its
    predicate. A bound typed into a spin box is modelled by the outcome of
    Python's int() on its text: Some(n), or None for a ValueError. */
module RangeFilters {
  import opened Options
  import opened Sequences
  import opened Calendar
  import opened FilterPredicates

  /** A range filter's predicate: Filter.DEFAULT, or "between lo and hi". */
  datatype Bounds<B> = Everything | Between(lo: B, hi: B)

  /** The year filter's predicate on an item. */
  predicate AcceptsYear(b: Bounds<int>, item: Item) {
    b.Everything? || (b.lo <= item.year && item.year <= b.hi)
  }

  /** When the bounds cross, the bound the user just edited wins and the other
      one is moved onto it; otherwise both stay as they are. */
  function Align(from: int, to: int, toEdited: bool): (r: (int, int))
    ensures r.0 <= r.1
    ensures toEdited ==> r.1 == to
    ensures !toEdited ==> r.0 == from
    ensures r.0 == from || r.0 == r.1
    ensures r.1 == to || r.0 == r.1
    ensures from <= to ==> r == (from, to)
  {
    if from > to then (if toEdited then (to, to) else (from, from))
    else (from, to)
  }

  function IntLess(a: int, b: int): bool {
    a < b
  }

  /** YearFilter.default_years. */
  const DefaultYears: seq<int> := [1, 9999]

  /** The "from" year as YearFilter._update reads it: the first known year when
      the text is not a number or is above 2999. */
  function ReadYearFrom(entry: Option<int>, years: seq<int>): int
    requires |years| > 0
  {
    if entry.Some? && entry.value <= 2999 then entry.value else years[0]
  }

  /** The "to" year as YearFilter._update reads it: the last known year when the
      text is not a number or is below 1000 (a year still being typed). */
  function ReadYearTo(entry: Option<int>, years: seq<int>): int
    requires |years| > 0
  {
    if entry.Some? && entry.value >= 1000 then entry.value else years[|years| - 1]
  }

  /** The range YearFilter._update settles on. */
  function YearRange(from: Option<int>, to: Option<int>, toEdited: bool, years: seq<int>): (r: (int, int))
    requires |years| > 0
    ensures r.0 <= r.1
    ensures toEdited && to.Some? && to.value >= 1000 ==> r.1 == to.value
    ensures !toEdited && from.Some? && from.value <= 2999 ==> r.0 == from.value
    ensures (to.None? || to.value < 1000) && toEdited ==> r.1 == years[|years| - 1]
    ensures (from.None? || from.value > 2999) && !toEdited ==> r.0 == years[0]
    ensures toEdited ==>
              r == (if ReadYearFrom(from, years) <= r.1 then ReadYearFrom(from, years) else r.1, ReadYearTo(to, years))
    ensures !toEdited ==>
              r == (ReadYearFrom(from, years), if r.0 <= ReadYearTo(to, years) then ReadYearTo(to, years) else r.0)
  {
    Align(ReadYearFrom(from, years), ReadYearTo(to, years), toEdited)
  }

  /** The year the user has just edited, when usable, always passes the
      range that is installed: aligning never filters out the edited value. */
  lemma EditedYearAccepted(from: Option<int>, to: Option<int>, toEdited: bool, years: seq<int>, item: Item)
    requires |years| > 0
    requires if toEdited then to.Some? && to.value >= 1000 && item.year == to.value
             else from.Some? && from.value <= 2999 && item.year == from.value
    ensures var r := YearRange(from, to, toEdited, years);
            AcceptsYear(Between(r.0, r.1), item)
  {
  }

  /** When the two years as read do not cross, the installed range accepts
      exactly the items between them. */
  lemma UncrossedYearWindow(from: Option<int>, to: Option<int>, toEdited: bool, years: seq<int>, item: Item)
    requires |years| > 0 && ReadYearFrom(from, years) <= ReadYearTo(to, years)
    ensures var r := YearRange(from, to, toEdited, years);
            AcceptsYear(Between(r.0, r.1), item) <==>
              ReadYearFrom(from, years) <= item.year <= ReadYearTo(to, years)
  {
  }

  class YearFilter {
    var yearFrom: Option<int>
    var yearTo: Option<int>
    var allYears: seq<int>
    var bounds: Bounds<int>

    ghost predicate Valid()
      reads this
    {
      |allYears| > 0
    }

    /** A new filter knows only the default years and lets everything pass. */
    constructor ()
      ensures Valid() && allYears == DefaultYears && bounds == Everything
      ensures yearFrom == None && yearTo == None
    {
      yearFrom, yearTo := None, None;
      allYears := DefaultYears;
      bounds := Everything;
    }

    /** YearFilter.reset: the spin boxes show the first and last known years and
        the filter lets everything pass again. */
    method Reset()
      requires Valid()
      modifies this
      ensures Valid() && allYears == old(allYears)
      ensures yearFrom == Some(allYears[0]) && yearTo == Some(allYears[|allYears| - 1])
      ensures bounds == Everything
    {
      yearFrom := Some(allYears[0]);
      yearTo := Some(allYears[|allYears| - 1]);
      bounds := Everything;
    }

    /** YearFilter._update: reads both bounds, replaces unusable ones, aligns
        them, writes back the one that was moved and installs the range. */
    method Update(toEdited: bool)
      requires Valid()
      modifies this
      ensures Valid() && allYears == old(allYears)
      ensures bounds == Between(YearRange(old(yearFrom), old(yearTo), toEdited, allYears).0,
                                YearRange(old(yearFrom), old(yearTo), toEdited, allYears).1)
      ensures bounds.lo <= bounds.hi
      ensures var f := ReadYearFrom(old(yearFrom), allYears);
              var t := ReadYearTo(old(yearTo), allYears);
              if f > t && toEdited then yearFrom == Some(t) && yearTo == old(yearTo)
              else if f > t then yearTo == Some(f) && yearFrom == old(yearFrom)
              else yearFrom == old(yearFrom) && yearTo == old(yearTo)
    {
      var from: int;
      if yearFrom.Some? { from := yearFrom.value; } else { from := allYears[0]; }
      var to: int;
      if yearTo.Some? { to := yearTo.value; } else { to := allYears[|allYears| - 1]; }
      if from > 2999 {
        from := allYears[0];
      }
      if to < 1000 {
        to := allYears[|allYears| - 1];
      }
      if from > to {
        if toEdited {
          from := to;
          yearFrom := Some(from);
        } else {
          to := from;
          yearTo := Some(to);
        }
      }
      bounds := Between(from, to);
    }

    /** YearFilter.populateChoices: the distinct non-missing years of the items
        in increasing order, or the default years when there are none; then
        reset. */
    method PopulateChoices(items: seq<Item>)
      modifies this
      ensures Valid()
      ensures StrictlySorted(allYears, IntLess)
      ensures (exists k :: 0 <= k < |items| && items[k].year != 0) ==>
                forall y :: y in allYears <==> exists k :: 0 <= k < |items| && items[k].year != 0 && items[k].year == y
      ensures (forall k :: 0 <= k < |items| ==> items[k].year == 0) ==> allYears == DefaultYears
      ensures yearFrom == Some(allYears[0]) && yearTo == Some(allYears[|allYears| - 1])
      ensures bounds == Everything
    {
      var years: set<int> := {};
      var i := 0;
      while i < |items|
        invariant 0 <= i <= |items|
        invariant forall y :: y in years <==> exists k :: 0 <= k < i && items[k].year != 0 && items[k].year == y
      {
        if items[i].year != 0 {
          years := years + {items[i].year};
        }
        i := i + 1;
      }
      forall k | 0 <= k < |items| && items[k].year != 0 ensures items[k].year in years { }
      allYears := SortedList(years, IntLess);
      assert forall y :: y in allYears <==> y in years by {
        forall y ensures y in allYears <==> y in years {
          assert y in allYears <==> y in Elems(allYears);
        }
      }
      if |allYears| == 0 {
        allYears := DefaultYears;
      }
      Reset();
    }
  }

  /** The rating filter's predicate on an item. */
  predicate AcceptsRating(b: Bounds<int>, item: Item) {
    b.Everything? || (b.lo <= item.rating && item.rating <= b.hi)
  }

  /** The range RatingFilter._update settles on: an unreadable "from" (such as
      the "-" it is reset to) counts as 0, an unreadable "to" as 10. */
  function RatingRange(from: Option<int>, to: Option<int>, toEdited: bool): (r: (int, int))
    ensures r.0 <= r.1
    ensures toEdited ==> r.1 == (if to.Some? then to.value else 10)
    ensures !toEdited ==> r.0 == (if from.Some? then from.value else 0)
    ensures from == None && to == Some(10) ==> r == (0, 10)
    ensures var f := if from.Some? then from.value else 0;
            var t := if to.Some? then to.value else 10;
            if toEdited then r == (if f <= t then f else t, t)
            else r == (f, if f <= t then t else f)
  {
    Align(if from.Some? then from.value else 0, if to.Some? then to.value else 10, toEdited)
  }

  /** The rating the user has just edited always passes the range that is
      installed. */
  lemma EditedRatingAccepted(from: Option<int>, to: Option<int>, toEdited: bool, item: Item)
    requires if toEdited then to.Some? && item.rating == to.value else from.Some? && item.rating == from.value
    ensures var r := RatingRange(from, to, toEdited);
            AcceptsRating(Between(r.0, r.1), item)
  {
  }

  class RatingFilter {
    var rateFrom: Option<int>
    var rateTo: Option<int>
    var bounds: Bounds<int>

    constructor ()
      ensures bounds == Everything
      ensures rateFrom == None && rateTo == None
    {
      rateFrom, rateTo := None, None;
      bounds := Everything;
    }

    /** RatingFilter.reset: "-" (not a number) and "10", everything passes. */
    method Reset()
      modifies this
      ensures rateFrom == None && rateTo == Some(10) && bounds == Everything
    {
      rateFrom := None;
      rateTo := Some(10);
      bounds := Everything;
    }

    /** RatingFilter._update: as for years, with defaults 0 and 10 and no check
        for implausible values. */
    method Update(toEdited: bool)
      modifies this
      ensures bounds == Between(RatingRange(old(rateFrom), old(rateTo), toEdited).0,
                                RatingRange(old(rateFrom), old(rateTo), toEdited).1)
      ensures bounds.lo <= bounds.hi
      ensures var f := if old(rateFrom).Some? then old(rateFrom).value else 0;
              var t := if old(rateTo).Some? then old(rateTo).value else 10;
              if f > t && toEdited then rateFrom == Some(t) && rateTo == old(rateTo)
              else if f > t then rateTo == Some(f) && rateFrom == old(rateFrom)
              else rateFrom == old(rateFrom) && rateTo == old(rateTo)
    {
      var from: int;
      if rateFrom.Some? { from := rateFrom.value; } else { from := 0; }
      var to: int;
      if rateTo.Some? { to := rateTo.value; } else { to := 10; }
      if from > to {
        if toEdited {
          from := to;
          rateFrom := Some(from);
        } else {
          to := from;
          rateTo := Some(to);
        }
      }
      bounds := Between(from, to);
    }
  }

  /** The date filter's predicate on an item that has been rated. */
  predicate AcceptsDate(b: Bounds<Date>, d: Date) {
    b.Everything? || (DateLessOrEqual(b.lo, d) && DateLessOrEqual(d, b.hi))
  }

  /** The date range DateFilter._update settles on, from two corrected dates. */
  function AlignDates(from: Date, to: Date, toEdited: bool): (r: (Date, Date))
    ensures DateLessOrEqual(r.0, r.1)
    ensures toEdited ==> r.1 == to
    ensures !toEdited ==> r.0 == from
    ensures r.0 == from || r.0 == r.1
    ensures r.1 == to || r.0 == r.1
    ensures DateLessOrEqual(from, to) ==> r == (from, to)
  {
    DateOrderIsTotal(from, to, to);
    if DateLess(to, from) then (if toEdited then (to, to) else (from, from))
    else (from, to)
  }

  /** The date the user has just edited (after correction) always passes the
      range that is installed, and so does every date between the two when
      they do not cross. */
  lemma EditedDateAccepted(from: Date, to: Date, toEdited: bool, d: Date)
    ensures var r := AlignDates(from, to, toEdited);
            AcceptsDate(Between(r.0, r.1), if toEdited then to else from)
    ensures DateLessOrEqual(from, d) && DateLessOrEqual(d, to) ==>
              var r := AlignDates(from, to, toEdited);
              AcceptsDate(Between(r.0, r.1), d)
  {
  }

  /** Python's list(range(lo, hi + 1)). */
  function Span(lo: int, hi: int): (r: seq<int>)
    requires lo <= hi
    ensures |r| == hi - lo + 1
    ensures forall k :: 0 <= k < |r| ==> r[k] == lo + k
  {
    seq(hi - lo + 1, k => lo + k)
  }

  /** The year span DateFilter.populateChoices offers: from the earliest to the
      latest year among the rating dates and the current year, every year in
      between included. */
  method RatingYears(items: seq<Item>, currentYear: int) returns (years: seq<int>)
    ensures |years| > 0
    ensures forall k :: 0 <= k < |years| ==> years[k] == years[0] + k
    ensures years[0] <= currentYear <= years[|years| - 1]
    ensures forall k :: 0 <= k < |items| && items[k].dateOf.Some? ==>
              years[0] <= items[k].dateOf.value.year <= years[|years| - 1]
    ensures years[0] == currentYear || exists k :: 0 <= k < |items| && items[k].dateOf.Some? && items[k].dateOf.value.year == years[0]
    ensures years[|years| - 1] == currentYear || exists k :: 0 <= k < |items| && items[k].dateOf.Some? && items[k].dateOf.value.year == years[|years| - 1]
  {
    var lo, hi := currentYear, currentYear;
    var i := 0;
    while i < |items|
      invariant 0 <= i <= |items|
      invariant lo <= currentYear <= hi
      invariant forall k :: 0 <= k < i && items[k].dateOf.Some? ==> lo <= items[k].dateOf.value.year <= hi
      invariant lo == currentYear || exists k :: 0 <= k < i && items[k].dateOf.Some? && items[k].dateOf.value.year == lo
      invariant hi == currentYear || exists k :: 0 <= k < i && items[k].dateOf.Some? && items[k].dateOf.value.year == hi
    {
      if items[i].dateOf.Some? {
        var y := items[i].dateOf.value.year;
        if y < lo { lo := y; }
        if y > hi { hi := y; }
      }
      i := i + 1;
    }
    years := Span(lo, hi);
  }

  class DateFilter {
    var fromYear: int
    var fromMonth: int
    var fromDay: int
    var toYear: int
    var toMonth: int
    var toDay: int
    var fromDayChoices: int
    var toDayChoices: int
    var allYears: seq<int>
    var bounds: Bounds<Date>

    ghost predicate Valid()
      reads this
    {
      && |allYears| > 0
      && MinYear <= allYears[0] <= MaxYear
    }

    /** A new filter offers the current year only. */
    constructor (currentYear: int)
      requires MinYear <= currentYear <= MaxYear
      ensures Valid() && allYears == [currentYear] && bounds == Everything
      ensures From() == Date(0, 0, 0) && To() == Date(0, 0, 0)
      ensures fromDayChoices == 0 && toDayChoices == 0
    {
      fromYear, fromMonth, fromDay := 0, 0, 0;
      toYear, toMonth, toDay := 0, 0, 0;
      fromDayChoices, toDayChoices := 0, 0;
      allYears := [currentYear];
      bounds := Everything;
    }

    /** The "from" date the widgets show. */
    function From(): Date
      reads this
    {
      Date(fromYear, fromMonth, fromDay)
    }

    /** The "to" date the widgets show. */
    function To(): Date
      reads this
    {
      Date(toYear, toMonth, toDay)
    }

    /** DateFilter._setDates: shows both dates, each day box offering the days
        of its month. */
    method SetDates(from: Date, to: Date)
      requires ValidDate(from) && ValidDate(to)
      modifies this
      ensures From() == from && To() == to
      ensures fromDayChoices == DaysInMonth(from.year, from.month)
      ensures toDayChoices == DaysInMonth(to.year, to.month)
      ensures allYears == old(allYears) && bounds == old(bounds)
    {
      fromYear, fromMonth, fromDay := from.year, from.month, from.day;
      fromDayChoices := DaysInMonth(from.year, from.month);
      toYear, toMonth, toDay := to.year, to.month, to.day;
      toDayChoices := DaysInMonth(to.year, to.month);
    }

    /** DateFilter.reset, with today's date given: from the first of January
        of the first offered year to today, everything passes. */
    method Reset(today: Date)
      requires Valid() && ValidDate(today)
      modifies this
      ensures Valid() && allYears == old(allYears)
      ensures From() == Date(allYears[0], 1, 1) && To() == today
      ensures fromDayChoices == 31 && toDayChoices == DaysInMonth(today.year, today.month)
      ensures bounds == Everything
    {
      SetDates(Date(allYears[0], 1, 1), today);
      bounds := Everything;
    }

    /** DateFilter._update: corrects both dates to real calendar dates, aligns
        them, shows them and installs the range. When a date cannot be built
        at all, Python raises before anything changes: ok is false and the
        filter is as it was. */
    method Update(toEdited: bool) returns (ok: bool)
      requires Valid()
      modifies this
      ensures Valid() && allYears == old(allYears)
      ensures var f := TryCorrectDate(old(fromYear), old(fromMonth), old(fromDay));
              var t := TryCorrectDate(old(toYear), old(toMonth), old(toDay));
              ok <==> f.Some? && t.Some?
      ensures !ok ==> From() == old(From()) && To() == old(To()) && bounds == old(bounds)
                      && fromDayChoices == old(fromDayChoices) && toDayChoices == old(toDayChoices)
      ensures ok ==>
                var f := TryCorrectDate(old(fromYear), old(fromMonth), old(fromDay)).value;
                var t := TryCorrectDate(old(toYear), old(toMonth), old(toDay)).value;
                var r := AlignDates(f, t, toEdited);
                && bounds == Between(r.0, r.1)
                && From() == r.0 && To() == r.1
                && fromDayChoices == DaysInMonth(r.0.year, r.0.month)
                && toDayChoices == DaysInMonth(r.1.year, r.1.month)
      ensures ok ==> ValidDate(From()) && ValidDate(To()) && DateLessOrEqual(From(), To())
    {
      var f := TryCorrectDate(fromYear, fromMonth, fromDay);
      var t := TryCorrectDate(toYear, toMonth, toDay);
      if f.None? || t.None? {
        return false;
      }
      var dateFrom, dateTo := f.value, t.value;
      if DateLess(dateTo, dateFrom) {
        if toEdited {
          dateFrom := dateTo;
        } else {
          dateTo := dateFrom;
        }
      }
      SetDates(dateFrom, dateTo);
      bounds := Between(dateFrom, dateTo);
      DateOrderIsTotal(f.value, t.value, t.value);
      return true;
    }

    /** DateFilter.populateChoices, with the current year and today's date
        given: every year from the earliest rating to the latest (or the
        current year), then reset. */
    method PopulateChoices(items: seq<Item>, currentYear: int, today: Date)
      requires MinYear <= currentYear <= MaxYear && ValidDate(today)
      requires forall k :: 0 <= k < |items| && items[k].dateOf.Some? ==> ValidDate(items[k].dateOf.value)
      modifies this
      ensures Valid()
      ensures forall k :: 0 <= k < |allYears| ==> allYears[k] == allYears[0] + k
      ensures allYears[0] <= currentYear <= allYears[|allYears| - 1]
      ensures forall k :: 0 <= k < |items| && items[k].dateOf.Some? ==>
                allYears[0] <= items[k].dateOf.value.year <= allYears[|allYears| - 1]
      ensures allYears[0] == currentYear ||
              exists k :: 0 <= k < |items| && items[k].dateOf.Some? && items[k].dateOf.value.year == allYears[0]
      ensures allYears[|allYears| - 1] == currentYear ||
              exists k :: 0 <= k < |items| && items[k].dateOf.Some? && items[k].dateOf.value.year == allYears[|allYears| - 1]
      ensures From() == Date(allYears[0], 1, 1) && To() == today && bounds == Everything
      ensures fromDayChoices == 31 && toDayChoices == DaysInMonth(today.year, today.month)
    {
      allYears := RatingYears(items, currentYear);
      Reset(today);
    }
  }
}
