/** The movie items the filters look at, and the predicates and choice lists
    of the list-box filters (genres, countries, directors, platforms, game
    makers). */
module FilterPredicates {
  import opened Options
  import opened Sequences
  import opened Calendar

  /** The raw properties of an item that the filters read. A year of 0 stands
      for a missing (falsy) year; dateOf is the day the item was rated, if it
      was. */
  datatype Item = Item(
    year: int,
    rating: int,
    dateOf: Option<Date>,
    genres: seq<string>,
    countries: seq<string>,
    directors: seq<string>,
    platforms: seq<string>,
    developers: seq<string>,
    producers: seq<string>)

  /** The list-valued properties, as named in each list-box filter's PROPERTY. */
  datatype Property = Genres | Countries | Directors | Platforms | Developers | Producers

  /** item.getRawProperty(p) for a list-valued property. */
  function RawProperty(item: Item, p: Property): seq<string> {
    match p
    case Genres => item.genres
    case Countries => item.countries
    case Directors => item.directors
    case Platforms => item.platforms
    case Developers => item.developers
    case Producers => item.producers
  }

  /** GenreFilter.filterAtLeast: some selected genre is one of the item's. */
  method FilterAtLeast(selected: seq<string>, item: Item) returns (r: bool)
    ensures r <==> exists g :: g in selected && g in item.genres
  {
    var i := 0;
    while i < |selected|
      invariant 0 <= i <= |selected|
      invariant forall k :: 0 <= k < i ==> selected[k] !in item.genres
    {
      if selected[i] in item.genres {
        return true;
      }
      i := i + 1;
    }
    return false;
  }

  /** GenreFilter.filterAll: every selected genre is one of the item's. */
  method FilterAll(selected: seq<string>, item: Item) returns (r: bool)
    ensures r <==> forall g :: g in selected ==> g in item.genres
  {
    var i := 0;
    while i < |selected|
      invariant 0 <= i <= |selected|
      invariant forall k :: 0 <= k < i ==> selected[k] in item.genres
    {
      if selected[i] !in item.genres {
        return false;
      }
      i := i + 1;
    }
    return true;
  }

  /** GenreFilter.filterExactly: as many genres as selected, all selected ones
      among them. */
  method FilterExactly(selected: seq<string>, item: Item) returns (r: bool)
    ensures r <==> |selected| == |item.genres| && forall g :: g in selected ==> g in item.genres
    ensures r && Distinct(selected) ==> Elems(item.genres) == Elems(selected)
  {
    if |selected| == |item.genres| {
      r := FilterAll(selected, item);
      if r && Distinct(selected) {
        SameLengthSubsetHasSameElems(selected, item.genres);
      }
      return;
    }
    return false;
  }

  /** CountryFilter.filterBelongs and DirectorFilter.filterBelongs (they differ
      only in PROPERTY): one of the item's values is selected. */
  method FilterBelongs(selected: seq<string>, item: Item, prop: Property) returns (r: bool)
    ensures r <==> exists v :: v in RawProperty(item, prop) && v in selected
  {
    var values := RawProperty(item, prop);
    var i := 0;
    while i < |values|
      invariant 0 <= i <= |values|
      invariant forall k :: 0 <= k < i ==> values[k] !in selected
    {
      if values[i] in selected {
        return true;
      }
      i := i + 1;
    }
    return false;
  }

  /** GamemakerFilter.filterBelongs: one of the item's developers or producers
      is selected. The makers list is gathered first, developers then producers. */
  method FilterMakerBelongs(selected: seq<string>, item: Item) returns (r: bool)
    ensures r <==> exists v :: (v in item.developers || v in item.producers) && v in selected
  {
    var props := [Developers, Producers];
    var makers: seq<string> := [];
    var p := 0;
    while p < |props|
      invariant 0 <= p <= |props|
      invariant makers == if p == 0 then [] else if p == 1 then item.developers
                          else item.developers + item.producers
    {
      var values := RawProperty(item, props[p]);
      var j := 0;
      ghost var before := makers;
      while j < |values|
        invariant 0 <= j <= |values|
        invariant makers == before + values[..j]
      {
        makers := makers + [values[j]];
        j := j + 1;
      }
      assert values[..|values|] == values;
      p := p + 1;
    }
    assert forall v :: v in item.developers || v in item.producers ==> v in makers;
    var i := 0;
    while i < |makers|
      invariant 0 <= i <= |makers|
      invariant forall k :: 0 <= k < i ==> makers[k] !in selected
    {
      if makers[i] in selected {
        return true;
      }
      i := i + 1;
    }
    return false;
  }

  /** PlatformFilter.filterBelongs, as written: it returns True on a match and
      falls off its end otherwise, so it returns None (here `None`), never
      False. */
  method FilterPlatformBelongs(selected: seq<string>, item: Item) returns (r: Option<bool>)
    ensures r == Some(true) <==> exists v :: v in item.platforms && v in selected
    ensures r != Some(false)
    ensures Truthy(r) <==> exists v :: v in item.platforms && v in selected
  {
    var i := 0;
    while i < |item.platforms|
      invariant 0 <= i <= |item.platforms|
      invariant forall k :: 0 <= k < i ==> item.platforms[k] !in selected
    {
      if item.platforms[i] in selected {
        return Some(true);
      }
      i := i + 1;
    }
    return None;
  }

  /** Python truthiness of a True/None result, as all() in the filter machine
      reads it: None counts as False, so the platform filter still filters
      like the other list-box filters. */
  predicate Truthy(r: Option<bool>) {
    r.Some? && r.value
  }

  /** Some property named in `props` of `item` holds the value v. */
  predicate Offers(item: Item, props: seq<Property>, v: string) {
    exists p :: p in props && v in RawProperty(item, p)
  }

  /** A list-box filter (genres, countries, directors, platforms or game makers)
      and the options its list box shows. */
  class ListboxFilter {
    const props: seq<Property>
    var options: seq<string>

    constructor (props: seq<Property>)
      ensures this.props == props && options == []
    {
      this.props := props;
      options := [];
    }

    /** ListboxFilter.populateChoices: every value that some item holds in one
        of the filter's properties, sorted, each once. */
    method PopulateChoices(items: seq<Item>)
      modifies this
      ensures StrictlySorted(options, LexLess)
      ensures forall v :: v in options <==> exists k :: 0 <= k < |items| && Offers(items[k], props, v)
    {
      var all: set<string> := {};
      var i := 0;
      while i < |items|
        invariant 0 <= i <= |items|
        invariant forall v :: v in all <==> exists k :: 0 <= k < i && Offers(items[k], props, v)
      {
        var p := 0;
        ghost var before := all;
        while p < |props|
          invariant 0 <= p <= |props|
          invariant forall v :: v in all <==> v in before || exists q :: 0 <= q < p && v in RawProperty(items[i], props[q])
        {
          all := all + Elems(RawProperty(items[i], props[p]));
          p := p + 1;
        }
        assert forall v :: Offers(items[i], props, v) <==> exists q :: 0 <= q < |props| && v in RawProperty(items[i], props[q]);
        i := i + 1;
      }
      LexLessIsStrictTotal();
      options := SortedList(all, LexLess);
      assert forall v :: v in options <==> v in all by {
        forall v ensures v in options <==> v in all {
          assert v in options <==> v in Elems(options);
        }
      }
    }
  }
}
