/** The older filter combinator: a dict of named parameters becomes a list of
    validated filter objects and one predicate on movies that accepts a movie
    when every kept filter does. */
module Filtering {
  import opened Options
  import opened Sequences
  import opened Calendar

  /** A movie record with the fields the filters read (already converted by
      int() where the filters convert them). */
  datatype Movie = Movie(
    year: int,
    rating: int,
    genres: seq<string>,
    countries: seq<string>,
    directors: seq<string>,
    timeSeen: Date)

  /** The value given for a key, by the shapes the validators can read:
      - Number: a Tk variable; `value` is int(parameter.get()), None when
        get() or int() raises;
      - GenreChoice: a dict {'mode': IntVar, 'list': list}; None where the key
        is missing or get() raises;
      - Text: a plain string;
      - DateParts: a dict of three Tk variables 'year', 'month', 'day'; None
        where the key is missing or get() raises;
      - NoneParam: Python's None. */
  datatype Param =
    | Number(value: Option<int>)
    | GenreChoice(mode: Option<int>, list: Option<seq<string>>)
    | Text(s: string)
    | DateParts(year: Option<int>, month: Option<int>, day: Option<int>)
    | NoneParam

  /** The filter classes reachable through construct's filter_map. */
  datatype FilterClass =
    YearFromClass | YearToClass | RatingFromClass | RatingToClass | GenreClass
    | CountryClass | SeenFromClass | SeenToClass | DirectorClass

  /** filter_map in construct: the class for each recognised key. */
  function FilterMap(key: string): (r: Option<FilterClass>)
  {
    match key
    case "year_from" => Some(YearFromClass)
    case "year_to" => Some(YearToClass)
    case "rating_from" => Some(RatingFromClass)
    case "rating_to" => Some(RatingToClass)
    case "genre" => Some(GenreClass)
    case "country" => Some(CountryClass)
    case "seen_from" => Some(SeenFromClass)
    case "seen_to" => Some(SeenToClass)
    case "director" => Some(DirectorClass)
    case _ => None
  }

  datatype GenreMode = AtLeast | All | Exactly

  /** A filter object that passed validation, with its parameter. Country and
      director filters keep whatever non-empty-string object they were given. */
  datatype Filter =
    | YearFrom(bound: int)
    | YearTo(bound: int)
    | RatingFrom(bound: int)
    | RatingTo(bound: int)
    | Genres(mode: GenreMode, genres: seq<string>)
    | Country(param: Param)
    | SeenFrom(date: Date)
    | SeenTo(date: Date)
    | Director(param: Param)

  /** What a validateParameter override does: raise, leave self.param None,
      or set a usable parameter. */
  datatype Validation = Raised | ParamNone | ParamSet(filter: Filter)

  /** int(parameter.get()), as the four bound filters read their parameter. */
  function ReadNumber(p: Param): Option<int> {
    if p.Number? then p.value else None
  }

  /** The validateParameter override of each class. */
  function ValidateParameter(c: FilterClass, p: Param): Validation {
    match c
    case YearFromClass => if ReadNumber(p).Some? then ParamSet(YearFrom(ReadNumber(p).value)) else Raised
    case YearToClass => if ReadNumber(p).Some? then ParamSet(YearTo(ReadNumber(p).value)) else Raised
    case RatingFromClass => if ReadNumber(p).Some? then ParamSet(RatingFrom(ReadNumber(p).value)) else Raised
    case RatingToClass => if ReadNumber(p).Some? then ParamSet(RatingTo(ReadNumber(p).value)) else Raised
    case GenreClass => ValidateGenre(p)
    case CountryClass => if p == Text("") || p == NoneParam then ParamNone else ParamSet(Country(p))
    case DirectorClass => if p == Text("") || p == NoneParam then ParamNone else ParamSet(Director(p))
    case SeenFromClass => if ReadDate(p).Some? then ParamSet(SeenFrom(ReadDate(p).value)) else Raised
    case SeenToClass => if ReadDate(p).Some? then ParamSet(SeenTo(ReadDate(p).value)) else Raised
  }

  /** GenreFilter.validateParameter: the mode is read first (raising if it
      cannot be), a mode other than 0, 1, 2 clears the parameter, then the
      list is read (raising if missing) and an empty list clears it too. */
  function ValidateGenre(p: Param): Validation {
    if !p.GenreChoice? || p.mode.None? then Raised
    else if p.list.None? then Raised
    else
      var m := p.mode.value;
      var mode := if m == 0 then Some(AtLeast) else if m == 1 then Some(All) else if m == 2 then Some(Exactly) else None;
      if mode.None? || |p.list.value| == 0 then ParamNone
      else ParamSet(Genres(mode.value, p.list.value))
  }

  /** date(y, m, d) from three Tk variables; None where Python raises. */
  function ReadDate(p: Param): Option<Date> {
    if p.DateParts? && p.year.Some? && p.month.Some? && p.day.Some?
       && ValidDate(Date(p.year.value, p.month.value, p.day.value))
    then Some(Date(p.year.value, p.month.value, p.day.value))
    else None
  }

  /** BaseFilter.__init__: the object exists only when validation neither
      raised nor left the parameter None; otherwise InvalidParameter. */
  function NewFilter(c: FilterClass, p: Param): (r: Option<Filter>)
    ensures r.None? <==> ValidateParameter(c, p).Raised? || ValidateParameter(c, p).ParamNone?
    ensures r.Some? ==> ValidateParameter(c, p) == ParamSet(r.value)
  {
    match ValidateParameter(c, p)
    case Raised => None
    case ParamNone => None
    case ParamSet(f) => Some(f)
  }

  /** The four bound filters exist exactly when int(parameter.get()) succeeds. */
  lemma BoundFilterValidity(c: FilterClass, p: Param)
    requires c in {YearFromClass, YearToClass, RatingFromClass, RatingToClass}
    ensures NewFilter(c, p).Some? <==> p.Number? && p.value.Some?
  {
  }

  /** GenreFilter is invalid when its mode is not 0, 1 or 2, or its list is
      empty (or either cannot be read). */
  lemma GenreFilterValidity(p: Param)
    ensures NewFilter(GenreClass, p).Some? <==>
              && p.GenreChoice? && p.mode.Some? && p.list.Some?
              && p.mode.value in {0, 1, 2} && |p.list.value| > 0
  {
  }

  /** Country and director filters refuse only the empty string and None. */
  lemma NameFilterValidity(c: FilterClass, p: Param)
    requires c == CountryClass || c == DirectorClass
    ensures NewFilter(c, p).Some? <==> p != Text("") && p != NoneParam
  {
  }

  /** The seen-date filters exist exactly when the three parts form a real
      calendar date. */
  lemma SeenFilterValidity(c: FilterClass, p: Param)
    requires c == SeenFromClass || c == SeenToClass
    ensures NewFilter(c, p).Some? <==>
              && p.DateParts? && p.year.Some? && p.month.Some? && p.day.Some?
              && ValidDate(Date(p.year.value, p.month.value, p.day.value))
  {
  }

  /** The filter construct makes for one dict entry, if any: unknown keys
      (a KeyError) and invalid parameters are skipped alike. */
  function MakeFilter(entry: (string, Param)): Option<Filter> {
    match FilterMap(entry.0)
    case None => None
    case Some(c) => NewFilter(c, entry.1)
  }

  /** The filters construct keeps, in the dict's order. */
  function Kept(entries: seq<(string, Param)>): (r: seq<Filter>)
    ensures |r| <= |entries|
    ensures forall f :: f in r <==> exists i :: 0 <= i < |entries| && MakeFilter(entries[i]) == Some(f)
  {
    if entries == [] then []
    else
      var init := entries[..|entries| - 1];
      var last := entries[|entries| - 1];
      assert forall i :: 0 <= i < |init| ==> init[i] == entries[i];
      Kept(init) + (match MakeFilter(last) case Some(f) => [f] case None => [])
  }

  /** GenreFilter.filterAtLeast, filterAll and filterExactly. */
  predicate GenreMatches(mode: GenreMode, gs: seq<string>, genres: seq<string>) {
    match mode
    case AtLeast => exists g :: g in gs && g in genres
    case All => forall g :: g in gs ==> g in genres
    case Exactly => (forall g :: g in gs ==> g in genres) && |gs| == |genres|
  }

  /** filteringLogic of each class. Bounds are inclusive; genre modes as in
      filterAtLeast, filterAll and filterExactly; a country or director
      parameter matches when it is one of the movie's values. */
  predicate Matches(f: Filter, m: Movie) {
    match f
    case YearFrom(n) => m.year >= n
    case YearTo(n) => m.year <= n
    case RatingFrom(n) => m.rating >= n
    case RatingTo(n) => m.rating <= n
    case Genres(mode, gs) => GenreMatches(mode, gs, m.genres)
    case Country(p) => p.Text? && p.s in m.countries
    case SeenFrom(d) => DateLessOrEqual(d, m.timeSeen)
    case SeenTo(d) => DateLessOrEqual(m.timeSeen, d)
    case Director(p) => p.Text? && p.s in m.directors
  }

  /** The "exactly" genre mode selects the movies whose genres are exactly the
      chosen ones, when the chosen list has no repeats. */
  lemma ExactlyMeansSameGenres(gs: seq<string>, m: Movie)
    requires Distinct(gs)
    ensures Matches(Genres(Exactly, gs), m) ==> Elems(m.genres) == Elems(gs)
  {
    if Matches(Genres(Exactly, gs), m) {
      SameLengthSubsetHasSameElems(gs, m.genres);
    }
  }

  /** Kept grows by the entry's filter, if it makes one. */
  lemma KeptStep(filters: seq<(string, Param)>, i: nat)
    requires i < |filters|
    ensures FilterMap(filters[i].0).None? ==> Kept(filters[..i + 1]) == Kept(filters[..i])
    ensures FilterMap(filters[i].0).Some? ==>
              var f := NewFilter(FilterMap(filters[i].0).value, filters[i].1);
              Kept(filters[..i + 1]) == Kept(filters[..i]) + (if f.Some? then [f.value] else [])
  {
    assert filters[..i + 1][..i] == filters[..i];
  }

  /** construct: one filter object per entry whose key is known and whose
      parameter validates, in order; everything else is skipped silently. */
  method Construct(filters: seq<(string, Param)>) returns (kept: seq<Filter>)
    ensures kept == Kept(filters)
  {
    kept := [];
    var i := 0;
    while i < |filters|
      invariant 0 <= i <= |filters|
      invariant kept == Kept(filters[..i])
    {
      KeptStep(filters, i);
      var c := FilterMap(filters[i].0);
      if c.None? {
        i := i + 1;
        continue;
      }
      var f := NewFilter(c.value, filters[i].1);
      if f.None? {
        i := i + 1;
        continue;
      }
      kept := kept + [f.value];
      i := i + 1;
    }
    assert filters[..|filters|] == filters;
  }

  /** _filterFunction: runs the kept filters in order and stops at the first
      that refuses; `calls` counts the filters that ran. */
  method FilterFunction(kept: seq<Filter>, m: Movie) returns (status: bool, ghost calls: nat)
    ensures status <==> forall i :: 0 <= i < |kept| ==> Matches(kept[i], m)
    ensures status ==> calls == |kept|
    ensures !status ==> 1 <= calls <= |kept| && !Matches(kept[calls - 1], m)
                        && forall i :: 0 <= i < calls - 1 ==> Matches(kept[i], m)
  {
    status := true;
    calls := 0;
    var i := 0;
    while i < |kept|
      invariant 0 <= i <= |kept| && calls == i
      invariant status && forall j :: 0 <= j < i ==> Matches(kept[j], m)
    {
      status := Matches(kept[i], m);
      calls := calls + 1;
      if !status {
        break;
      }
      i := i + 1;
    }
  }

  /** The constructed predicate accepts a movie exactly when every entry of
      the dict either yields no filter or yields one that accepts it. */
  lemma ConstructedConjunction(filters: seq<(string, Param)>, m: Movie)
    ensures (forall i :: 0 <= i < |Kept(filters)| ==> Matches(Kept(filters)[i], m)) <==>
            (forall i :: 0 <= i < |filters| && MakeFilter(filters[i]).Some? ==> Matches(MakeFilter(filters[i]).value, m))
  {
    var kept := Kept(filters);
    if forall i :: 0 <= i < |kept| ==> Matches(kept[i], m) {
      forall i | 0 <= i < |filters| && MakeFilter(filters[i]).Some?
        ensures Matches(MakeFilter(filters[i]).value, m)
      {
        assert MakeFilter(filters[i]).value in kept;
      }
    }
    if forall i :: 0 <= i < |filters| && MakeFilter(filters[i]).Some? ==> Matches(MakeFilter(filters[i]).value, m) {
      forall j | 0 <= j < |kept| ensures Matches(kept[j], m) {
        assert kept[j] in kept;
        var i :| 0 <= i < |filters| && MakeFilter(filters[i]) == Some(kept[j]);
        assert Matches(MakeFilter(filters[i]).value, m);
      }
    }
  }

  /** A year_from and a year_to entry together select the closed interval
      between them. */
  lemma YearWindow(lo: int, hi: int, m: Movie)
    ensures var kept := Kept([("year_from", Number(Some(lo))), ("year_to", Number(Some(hi)))]);
            (forall i :: 0 <= i < |kept| ==> Matches(kept[i], m)) <==> lo <= m.year <= hi
  {
    var entries := [("year_from", Number(Some(lo))), ("year_to", Number(Some(hi)))];
    assert entries[..1] == [("year_from", Number(Some(lo)))];
    assert Kept(entries[..1]) == [YearFrom(lo)];
    assert Kept(entries) == [YearFrom(lo), YearTo(hi)];
  }
}
