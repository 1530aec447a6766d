/**
 * The client-side query pipeline of the cities directory page: autocomplete
 * suggestions over the loaded cities, the optional single-column sort, the
 * per-column filters applied to the sorted rows, and the header-click rule
 * that changes the sort configuration.
 */
module CityQuery {
  import opened Wrappers
  import opened Text
  import opened Seqs
  import opened Sorting
  import opened CityTypes

  /** The dropdown lists at most this many cities. */
  const MaxSuggestions := 5

  /** The city's lowercased `ascii_name` includes the lowercased input. */
  predicate SuggestionMatch(c: City, input: string)
  {
    Contains(Lower(c.asciiName), Lower(input))
  }

  function MatchesInput(input: string): City -> bool
  {
    c => SuggestionMatch(c, input)
  }

  /**
   * `cities.filter(match).slice(0, 5)`: at most five matching cities, taken
   * from the loaded list in order.
   */
  function Suggestions(cities: seq<City>, input: string): (r: seq<City>)
    ensures |r| <= MaxSuggestions
    ensures |r| == Min(MaxSuggestions, |Filter(cities, MatchesInput(input))|)
    ensures forall i :: 0 <= i < |r| ==> r[i] in cities && SuggestionMatch(r[i], input)
    ensures IsSubsequence(r, cities)
  {
    var matching := Filter(cities, MatchesInput(input));
    FilterMembers(cities, MatchesInput(input));
    FilterIsSubsequence(cities, MatchesInput(input));
    SubsequencePrefix(matching, cities, Min(MaxSuggestions, |matching|));
    matching[..Min(MaxSuggestions, |matching|)]
  }

  /**
   * No earlier match is skipped: whenever the first `j` cities hold at most five
   * matches, those matches open the suggestion list, in the same order.
   */
  lemma SuggestionsAreFirstMatches(cities: seq<City>, input: string, j: nat)
    requires j <= |cities|
    requires |Filter(cities[..j], MatchesInput(input))| <= MaxSuggestions
    ensures var early := Filter(cities[..j], MatchesInput(input));
            |early| <= |Suggestions(cities, input)| &&
            Suggestions(cities, input)[..|early|] == early
  {
    FilterPrefix(cities, j, MatchesInput(input));
  }

  /** With an empty input every city matches: the first `min(5, n)` cities. */
  lemma SuggestionsForEmptyInput(cities: seq<City>)
    ensures Suggestions(cities, "") == cities[..Min(MaxSuggestions, |cities|)]
  {
    assert Lower("") == "";
    forall c | c in cities ensures MatchesInput("")(c) {
      ContainsEmpty(Lower(c.asciiName));
    }
    FilterAll(cities, MatchesInput(""));
  }

  /**
   * The dropdown guard `inputValue && suggestions.length > 0`: shown exactly
   * when the input is non-empty and some loaded city matches it.
   */
  function DropdownShown(cities: seq<City>, input: string): (shown: bool)
    ensures shown <==> input != "" && exists c :: c in cities && SuggestionMatch(c, input)
  {
    FilterMembers(cities, MatchesInput(input));
    input != "" && |Suggestions(cities, input)| > 0
  }

  /** `a[sortConfig.key] ?? ""` for the page's string-valued sort keys. */
  function SortValue(f: Field): City -> string
  {
    c => FieldValue(c, f)
  }

  /**
   * `sortedCities`: a copy of `cities`, sorted by the comparator when a sort
   * configuration is set. The result is a permutation of the loaded cities,
   * sorted by the chosen key, in which cities with equal keys keep their
   * arrival order; without a configuration it is the list itself.
   */
  function SortedCities(cities: seq<City>, config: Option<SortConfig<Field>>): (r: seq<City>)
    ensures config.None? ==> r == cities
    ensures multiset(r) == multiset(cities)
    ensures config.Some? ==> SortedBy(r, SortValue(config.value.key), config.value.direction)
    ensures config.Some? ==> forall v ::
              Filter(r, HasKey(SortValue(config.value.key), v))
              == Filter(cities, HasKey(SortValue(config.value.key), v))
  {
    match config
    case None => cities
    case Some(SortConfig(key, direction)) =>
      SortByIsSorted(cities, SortValue(key), direction);
      SortByCharacterized(cities, SortBy(cities, SortValue(key), direction), SortValue(key), direction);
      SortBy(cities, SortValue(key), direction)
  }

  /** Ascending: keys never decrease; descending: keys never increase. */
  lemma SortedCitiesOrder(cities: seq<City>, key: Field, direction: Direction, i: nat, j: nat)
    requires i < j < |cities|
    ensures var r := SortedCities(cities, Some(SortConfig(key, direction)));
            var a, b := FieldValue(r[i], key), FieldValue(r[j], key);
            if direction == Asc then a == b || Less(a, b) else a == b || Less(b, a)
  {
    var r := SortedCities(cities, Some(SortConfig(key, direction)));
    var a, b := FieldValue(r[i], key), FieldValue(r[j], key);
    assert !Precedes(direction, SortValue(key)(r[j]), SortValue(key)(r[i]));
    ComparatorConsistent(direction, b, a);
    LessTotal(a, b);
  }

  /** One entry of `filters`: the column and the text typed into its filter box. */
  datatype ColumnFilter = ColumnFilter(field: Field, text: string)

  /** The page starts with an empty filter for `name`, `cou_name_en` and `timezone`. */
  const InitialFilters: seq<ColumnFilter> :=
    [ColumnFilter(Name, ""), ColumnFilter(CountryName, ""), ColumnFilter(Timezone, "")]

  /** An empty filter accepts every row; otherwise the lowercased field must include the lowercased text. */
  predicate FilterAccepts(c: City, f: ColumnFilter)
  {
    f.text == "" || Contains(Lower(FieldValue(c, f.field)), Lower(f.text))
  }

  /** `Object.entries(filters).every(...)`. */
  predicate PassesFilters(c: City, filters: seq<ColumnFilter>)
  {
    forall i :: 0 <= i < |filters| ==> FilterAccepts(c, filters[i])
  }

  function RowFilter(filters: seq<ColumnFilter>): City -> bool
  {
    c => PassesFilters(c, filters)
  }

  /**
   * `filteredCities`: the sorted rows that pass every filter, in the sorted
   * order. A row is kept (with all its occurrences) iff it passes.
   */
  function FilteredCities(sorted: seq<City>, filters: seq<ColumnFilter>): (r: seq<City>)
    ensures IsSubsequence(r, sorted)
    ensures forall i :: 0 <= i < |r| ==> PassesFilters(r[i], filters)
    ensures forall c | c in sorted && PassesFilters(c, filters) :: multiset(r)[c] == multiset(sorted)[c]
    ensures multiset(r) <= multiset(sorted)
  {
    FilterMembers(sorted, RowFilter(filters));
    FilterIsSubsequence(sorted, RowFilter(filters));
    Filter(sorted, RowFilter(filters))
  }

  /** Filters whose texts are all empty return the sorted rows unchanged. */
  lemma EmptyFiltersKeepAll(sorted: seq<City>, filters: seq<ColumnFilter>)
    requires forall i :: 0 <= i < |filters| ==> filters[i].text == ""
    ensures FilteredCities(sorted, filters) == sorted
  {
    FilterAll(sorted, RowFilter(filters));
  }

  /**
   * Typing more characters into one filter box never adds rows: the new result
   * is a subsequence of the old one.
   */
  lemma NarrowingFilterShrinks(sorted: seq<City>, filters: seq<ColumnFilter>, i: nat, more: string)
    requires i < |filters|
    ensures var narrowed := filters[i := ColumnFilter(filters[i].field, filters[i].text + more)];
            IsSubsequence(FilteredCities(sorted, narrowed), FilteredCities(sorted, filters)) &&
            |FilteredCities(sorted, narrowed)| <= |FilteredCities(sorted, filters)|
  {
    var narrowed := filters[i := ColumnFilter(filters[i].field, filters[i].text + more)];
    forall c | RowFilter(narrowed)(c) ensures RowFilter(filters)(c) {
      forall k | 0 <= k < |filters| ensures FilterAccepts(c, filters[k]) {
        if k == i && filters[i].text != "" {
          assert FilterAccepts(c, narrowed[i]);
          LowerAppend(filters[i].text, more);
          ContainsPrefixOfNeedle(Lower(FieldValue(c, filters[i].field)), Lower(filters[i].text), Lower(more));
        } else {
          assert FilterAccepts(c, narrowed[k]);
        }
      }
    }
    FilterMonotone(sorted, RowFilter(narrowed), RowFilter(filters));
    SubsequenceLength(FilteredCities(sorted, narrowed), FilteredCities(sorted, filters));
  }

  /**
   * The rows the table shows: the sorted cities, filtered. Every row shown is
   * a loaded city passing all filters, and every such city is shown as often
   * as it was loaded.
   */
  function VisibleRows(cities: seq<City>, config: Option<SortConfig<Field>>, filters: seq<ColumnFilter>): (r: seq<City>)
    ensures multiset(r) <= multiset(cities)
    ensures forall i :: 0 <= i < |r| ==> PassesFilters(r[i], filters)
    ensures forall c | c in cities && PassesFilters(c, filters) :: multiset(r)[c] == multiset(cities)[c]
  {
    FilteredCities(SortedCities(cities, config), filters)
  }

  /** Before anything is typed into a filter box, the table shows every sorted row. */
  lemma InitialFiltersShowAll(sorted: seq<City>)
    ensures FilteredCities(sorted, InitialFilters) == sorted
  {
    EmptyFiltersKeepAll(sorted, InitialFilters);
  }

  /**
   * Sorting before filtering gives the same rows, in the same order, as
   * sorting the filtered cities: the stable sort makes the order independent
   * of when the filter is applied.
   */
  lemma VisibleRowsSortFilteredCities(cities: seq<City>, config: SortConfig<Field>, filters: seq<ColumnFilter>)
    ensures VisibleRows(cities, Some(config), filters)
         == SortedCities(FilteredCities(cities, filters), Some(config))
  {
    SortThenFilter(cities, RowFilter(filters), SortValue(config.key), config.direction);
  }

  /**
   * `requestSort(key)` on the page: the new `sortConfig` is `(key, desc)` iff
   * it was `(key, asc)`, and `(key, asc)` otherwise.
   */
  function RequestSort(current: Option<SortConfig<Field>>, key: Field): (next: Option<SortConfig<Field>>)
    ensures next.Some? && next.value.key == key
    ensures next.value.direction == Desc <==> current == Some(SortConfig(key, Asc))
  {
    Some(NextSortConfig(current, key))
  }

  /** The table's three columns. */
  datatype Column = CityColumn | CountryColumn | TimezoneColumn

  /**
   * The key a click on a column header sorts by. The City column sorts on
   * `ascii_name` while its filter box edits the `name` filter.
   */
  function ColumnSortKey(col: Column): (k: Field)
    ensures k != Name
  {
    match col
    case CityColumn => AsciiName
    case CountryColumn => CountryName
    case TimezoneColumn => Timezone
  }

  /** The filter entry a column's filter box edits: one of the page's initial filters. */
  function ColumnFilterField(col: Column): (f: Field)
    ensures f != AsciiName
    ensures exists i :: 0 <= i < |InitialFilters| && InitialFilters[i].field == f
  {
    match col
    case CityColumn =>
      assert InitialFilters[0].field == Name;
      Name
    case CountryColumn =>
      assert InitialFilters[1].field == CountryName;
      CountryName
    case TimezoneColumn =>
      assert InitialFilters[2].field == Timezone;
      Timezone
  }

  /** Sorting and filtering use the same field in every column but the City column. */
  lemma SortAndFilterFieldsAgree(col: Column)
    ensures ColumnSortKey(col) == ColumnFilterField(col) <==> col != CityColumn
  {
  }

  /** A click on a column header: `requestSort` with that column's sort key. */
  function HeaderClick(current: Option<SortConfig<Field>>, col: Column): Option<SortConfig<Field>>
  {
    RequestSort(current, ColumnSortKey(col))
  }

  /**
   * The City column: its header sorts on `ascii_name`, while typing `text`
   * into its filter box sets the `name` filter and leaves the other two empty.
   */
  lemma CityColumnSortsAndFiltersApart(current: Option<SortConfig<Field>>, text: string)
    ensures HeaderClick(current, CityColumn).value.key == AsciiName
    ensures SetColumnFilter(InitialFilters, CityColumn, text)
         == [ColumnFilter(Name, text), ColumnFilter(CountryName, ""), ColumnFilter(Timezone, "")]
  {
    var r := SetColumnFilter(InitialFilters, CityColumn, text);
    assert r[0] == ColumnFilter(Name, text);
    assert r[1] == ColumnFilter(CountryName, "");
    assert r[2] == ColumnFilter(Timezone, "");
  }

  /** Typing `text` into a column's filter box replaces that column's filter. */
  function SetColumnFilter(filters: seq<ColumnFilter>, col: Column, text: string): (r: seq<ColumnFilter>)
    ensures |r| == |filters|
    ensures forall i :: 0 <= i < |r| ==>
              r[i] == if filters[i].field == ColumnFilterField(col)
                      then ColumnFilter(filters[i].field, text) else filters[i]
  {
    if filters == [] then []
    else
      var head := if filters[0].field == ColumnFilterField(col)
                  then ColumnFilter(filters[0].field, text) else filters[0];
      [head] + SetColumnFilter(filters[1..], col, text)
  }
}
