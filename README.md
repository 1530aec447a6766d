# Cities directory and weather lookup — a Dafny model

This project models the client-side logic of a small weather application.
The application has a city directory with search, sort, filter and infinite
scroll, and a per-city weather view. The model covers:

- **Query pipeline** of the cities page (`app/cities/page.tsx`).
  - Autocomplete suggestions: the first five loaded cities whose ASCII name
    contains the input, ignoring case.
  - Single-column sort of a copy of the loaded cities, ascending or descending.
    It is stable, as ECMAScript's `Array.prototype.sort` is.
  - Per-column substring filters, applied to the sorted rows.
  - The header-click rule that toggles the sort direction.
- **Pagination store** (`app/hooks/useCities.ts`): a class with the hook's
  state (`cities`, `loading`, `hasMore`, `offset`, `error`). It has methods for
  loading the next page of 20, for the reset on a search change, and for both
  together. A ghost list of the pages loaded since the last reset backs the
  object invariant: `cities` is those pages joined in arrival order, and
  `offset` is 20 times their number.
- **Sortable-table hook** (`app/hooks/useSortableTable.ts`): a class whose
  `RequestSort` applies the same toggle rule. It always sorts the rows it was
  given, never the rows it showed last.
- **Request builders** (`app/lib/api.ts`):
  - the places-catalog parameters, including the `where` clause, which holds
    the query verbatim;
  - the two weather URLs;
  - the start-up check for the API key.
- **Background lookup** (`app/lib/weatherUtils.ts`): a total function from a
  condition label to one of five gradients.

Shared pieces:

- `Text`: ASCII case folding, `includes`, and JavaScript's `<` on strings.
  `<` is lexicographic order on UTF-16 code units, with a proper prefix first,
  so a character above U+FFFF sorts between U+D7FF and U+E000.
- `Seqs`: `filter` and the order-preserving subsequence relation.
- `Sorting`: the three-way comparator, the stable sort `SortBy`, and the toggle
  rule `NextSortConfig`. The page and the hook both use these.

`SortBy` is proved to be *the* stable sort, so any conforming engine's
`sort` gives the same result:

- it returns a permutation of its input;
- the result is sorted by the comparator;
- within each sort value, elements keep their arrival order;
- any sequence with these three properties equals `SortBy`'s result
  (`Sorting.SortByCharacterized`).

Because the sort is stable, sorting then filtering gives the same rows in the
same order as filtering then sorting (`CityQuery.VisibleRowsSortFilteredCities`).

Where the application's design notes and its code disagree, the model follows
the code:

- **Suggestions for empty input.** An empty input matches every city, so the
  suggestions are the first `min(5, n)` cities. Only the dropdown guard
  `inputValue && …` hides them (`CityQuery.SuggestionsForEmptyInput`,
  `CityQuery.DropdownShown`).
- **Search change.** It clears `cities` and `offset` but does not set
  `hasMore` back to true. After a failed first load, `hasMore` still describes
  the previous search (`CityStore.Store.Reset`, `CityStore.Store.ChangeSearch`).
- **`hasMore` is not monotonic.** A later full page sets it back to true.
- **Background labels.** The lookup knows only `Clear`, `Rain`, `Clouds` and
  `Snow`, with exact, case-sensitive matching. Every other label gets the
  neutral gray default.
- **City column.** It sorts on `ascii_name` (`app/cities/page.tsx:194`) but
  its filter box edits the `name` filter (`app/cities/page.tsx:213-215`). See
  `CityQuery.CityColumnSortsAndFiltersApart`.

## Model

| member | source | states |
|---|---|---|
| `CityQuery.Suggestions` | app/cities/page.tsx:35-43 | At most 5 suggestions. Each is a loaded city whose lowercased `ascii_name` includes the lowercased input. They keep list order (a subsequence of `cities`). Their number is min(5, number of matching cities). |
| `CityQuery.SuggestionsAreFirstMatches` | app/cities/page.tsx:36-42 | No earlier match is skipped. When the first `j` cities hold at most five matches, those matches open the suggestion list, in order. |
| `CityQuery.SuggestionsForEmptyInput` | app/cities/page.tsx:38-42 | With an empty input every city matches, so the suggestions are the first min(5, n) loaded cities. |
| `CityQuery.DropdownShown` | app/cities/page.tsx:145 | The dropdown shows exactly when the input is non-empty and some loaded city matches it. |
| `CityQuery.SortedCities` | app/cities/page.tsx:46-63 | With no sort config the result is `cities` itself. Otherwise it is a permutation of `cities`, sorted by the comparator on the chosen key, and cities with equal key values keep their arrival order. |
| `CityQuery.SortedCitiesOrder` | app/cities/page.tsx:49-60 | In the sorted rows, keys never decrease (`asc`) or never increase (`desc`) under JavaScript string order. |
| `CityQuery.FilteredCities` | app/cities/page.tsx:66-76 | The output is an order-preserving subsequence of the sorted rows. Every kept row passes all filters. Every passing row is kept with all its occurrences. |
| `CityQuery.EmptyFiltersKeepAll` | app/cities/page.tsx:69 | When every filter text is empty, the filter returns the sorted rows unchanged. |
| `CityQuery.NarrowingFilterShrinks` | app/cities/page.tsx:71-73 | Extending one filter's text gives a subsequence of the previous result, so never more rows. |
| `CityQuery.VisibleRowsSortFilteredCities` | app/cities/page.tsx:46-76 | Sorting and then filtering gives exactly the stable sort of the filtered cities. |
| `CityQuery.VisibleRows` | app/cities/page.tsx:46-76 | The rows shown are loaded cities that pass every filter. Each passing city appears as often as it was loaded. |
| `CityQuery.InitialFiltersShowAll` | app/cities/page.tsx:23-27 | The initial filters for `name`, `cou_name_en` and `timezone` are empty, so at first the table shows every sorted row. |
| `CityQuery.ColumnSortKey` | app/cities/page.tsx:194-259 | The three headers sort on `ascii_name`, `cou_name_en` and `timezone`. No header sorts on `name`. |
| `CityQuery.ColumnFilterField` | app/cities/page.tsx:213-281 | Each column's filter box edits one of the page's initial filter entries (`name`, `cou_name_en`, `timezone`), never `ascii_name`. |
| `CityQuery.SortAndFilterFieldsAgree` | app/cities/page.tsx:194-281 | A column sorts on the same field it filters on iff it is not the City column. |
| `CityQuery.CityColumnSortsAndFiltersApart` | app/cities/page.tsx:194-215 | Clicking the City header sorts on `ascii_name`. Typing into its filter box from the initial state sets the `name` filter and leaves the other two empty. |
| `CityQuery.RequestSort` | app/cities/page.tsx:78-84 | The new config has the clicked key. Its direction is `desc` iff the current config is `(key, asc)`, and `asc` otherwise. |
| `CityQuery.SetColumnFilter` | app/cities/page.tsx:213-281 | Typing into a column's filter box replaces the text of that column's filter entry and leaves the other entries alone. |
| `Sorting.NextSortConfig` | app/hooks/useSortableTable.ts:13-17 | The toggle rule: the stored key is the clicked one, and the direction is `desc` iff the previous config was `(key, asc)`. |
| `Sorting.SortToggleAlternates` | app/cities/page.tsx:78-84 | Clicking the same column repeatedly alternates between the two directions. |
| `Sorting.Comparator` | app/cities/page.tsx:49-60 | The comparator returns only -1, 0 or 1. |
| `Sorting.ComparatorConsistent` | app/cities/page.tsx:49-60 | The comparator is antisymmetric and returns 0 exactly on equal values. It is negative iff `a < b` for `asc`, or `a > b` for `desc`. |
| `Sorting.SortBy` | app/hooks/useSortableTable.ts:19-23 | Sorting a copy returns a permutation of the input: same length, same multiset. |
| `Sorting.SortByIsSorted` | app/hooks/useSortableTable.ts:20-22 | The sorted copy never puts an element after one it must precede. |
| `Sorting.SortByIsStable` | app/cities/page.tsx:49-60 | For every sort value, the elements with that value keep their arrival order. |
| `Sorting.StableSortUnique` | app/cities/page.tsx:49-60 | Two sorted sequences that agree on the order within each sort value are equal. |
| `Sorting.SortByCharacterized` | app/cities/page.tsx:49-60 | A sequence equals `SortBy`'s result iff it is a permutation of the input, sorted, and stable. |
| `Sorting.SortThenFilter` | app/cities/page.tsx:66-76 | Filtering the stably sorted sequence equals stably sorting the filtered sequence. |
| `Text.LessIsUtf16Order` | app/cities/page.tsx:53-56 | The string order used by both comparators is lexicographic order on the strings' UTF-16 code units, which is what JavaScript's `<` and `>` compare. |
| `CityStore.ErrorFor` | app/hooks/useCities.ts:24 | A thrown `Error` is stored as is. Any other thrown value becomes an error with message "Failed to fetch cities". |
| `CityStore.Store.constructor` | app/hooks/useCities.ts:7-11 | The initial state: no cities, not loading, `hasMore` true, offset 0, no error. |
| `CityStore.Store.StartLoad` | app/hooks/useCities.ts:14-19 | While `loading` holds, nothing changes and no request is made. Otherwise `loading` is set, `error` is cleared, and `fetchCities(searchQuery, 20, offset)` is issued. |
| `CityStore.Store.FinishLoad` | app/hooks/useCities.ts:19-27 | On a page: `cities` becomes the old cities followed by the page, `hasMore` becomes "the page has 20 cities", and `offset` grows by 20. On a rejection: `error` is set and `cities`, `offset` and `hasMore` are unchanged. `loading` ends false either way. |
| `CityStore.Store.LoadNext` | app/hooks/useCities.ts:14-28 | A whole `loadCities`: the guard, then the request with the pre-load offset, then the success or failure effects above. On success `error` ends cleared. |
| `CityStore.Store.Reset` | app/hooks/useCities.ts:30-32 | The list becomes empty and the offset 0. `hasMore`, `loading` and `error` are kept. |
| `CityStore.Store.ChangeSearch` | app/hooks/useCities.ts:30-34 | The list is emptied and the offset zeroed. While a load is in flight nothing is requested and `hasMore` and `error` are kept. Otherwise the first load asks for offset 0 of the new query. On success the list is that page, `hasMore` says whether it was full, and `error` is cleared. On failure the list stays empty, `error` is set, and `hasMore` keeps its value from the previous search. |
| `CityStore.PagingScenario` | app/hooks/useCities.ts:19-22 | Loads of 20, a failure, then 20 and 7 cities. Result: the three pages joined in request order, offset 60, `hasMore` false, and the failure recorded with the fallback message. |
| `SortableTable.Table.constructor` | app/hooks/useSortableTable.ts:6-10 | Initially `sortedData` is the given rows and `sortConfig` is null. |
| `SortableTable.Table.Rerender` | app/hooks/useSortableTable.ts:5-6 | New rows replace `initialData`. The shown rows and the config are kept until the next `requestSort`. |
| `SortableTable.Table.RequestSort` | app/hooks/useSortableTable.ts:12-25 | The config follows the toggle rule. `sortedData` becomes the stable sort of `initialData` by the clicked key and the new direction, independent of the previous `sortedData`. `initialData` is unchanged. |
| `SortableTable.SortTwiceScenario` | app/hooks/useSortableTable.ts:13-25 | Successive clicks on one column give a permutation sorted ascending, then one sorted descending, then the first result again. |
| `Api.IndianCitiesParams` | app/lib/api.ts:8-14 | Always `where country_code='IN'`, limit 100, ordered by `population DESC`, no offset. |
| `Api.SearchTermRoundTrip` | app/lib/api.ts:31 | The query is recovered exactly from `search(name, "…")`, quotes included. It is inserted verbatim, not escaped. |
| `Api.SearchWhere` | app/lib/api.ts:31 | The `where` expression is `search(name, "` followed by the query verbatim and then `")`. |
| `Api.CitiesParams` | app/lib/api.ts:25-34 | Omitted arguments default to `""`, 20 and 0. `limit` and `offset` pass through. `where` is absent iff the query is empty. Otherwise `where` is exactly `search(name, "<query>")`, from which the query reads back unchanged. |
| `Api.LoadApiConfig` | app/lib/api.ts:19-22 | A missing or empty key fails with "Missing OpenWeather API key in environment variables.". Otherwise the key is kept as given. The key type `ApiKey` excludes `""`, so no URL is ever built without a key. |
| `Api.WeatherUrl` | app/lib/api.ts:40-44 | The URL is exactly base + `/weather?q=` + city name + `&appid=` + key + `&units=metric`, with the city name not encoded. |
| `Api.ForecastUrl` | app/lib/api.ts:49-53 | The URL is exactly base + `/forecast?q=` + city name + `&appid=` + key + `&units=metric&cnt=40`. |
| `WeatherUtils.WeatherBackground` | app/lib/weatherUtils.ts:1-14 | `Clear`, `Rain`, `Clouds` and `Snow` map to their gradients, matched exactly and case-sensitively. Every other string maps to the gray default. The result is always one of five strings. |
| `WeatherUtils.BackgroundIdentifiesCondition` | app/lib/weatherUtils.ts:2-13 | Two labels get the same background iff they are equal or both unlabelled, so the four labelled gradients are distinct from each other and from the default. |

## Left out

- Rendering. This covers all JSX, styling and icons, `app/page.tsx` and
  `app/components/WeatherSkeleton.tsx`. These are presentational.
- The weather detail page. `app/weather/[city]/page.tsx` is not part of this
  model. It holds the paired fetch, the condition icons and the 5-day
  summary.
- Network I/O. The axios calls and `response.data.results` are not modelled;
  a fetch is the `FetchResult` argument (a page or a rejection). The
  environment-variable read is the `envKey` argument of `Api.LoadApiConfig`.
- The 300 ms debounce of the search input (a library timer). Only its effect,
  a new search term, is modelled, by `CityStore.Store.ChangeSearch`.
- Event handlers in the markup. This covers the suggestion click that sets
  the input and the search term, and the infinite-scroll `next` trigger.
  Each of them only calls a modelled operation.
- React scheduling. The mount-time load and the search-change effect can run
  in the same render. `loadCities` also reads `loading` and `offset` from a
  render closure, so the first load after a search change may use the
  previous search's offset. The model runs the transitions one after another
  (reset, then load).
- Unicode case folding. `toLowerCase` is ASCII only here (`Text.Lower`).
  The row links' `encodeURIComponent` and `toString` on non-string values are
  not modelled. String order is modelled in full by UTF-16 code units
  (`Text.LessIsUtf16Order`).
- Browser effects: `window.location.reload` and `window.open`.
- Sort and filter keys. They are the four string fields the page uses:
  `name`, `ascii_name`, `cou_name_en` and `timezone`. For these the `?? ""`
  fallback never fires. Sorting by `geoname_id`, `coordinates` or the optional
  `population`, which would mix numbers with `""` under JavaScript's `<`, is
  not modelled.
- SortableTable.Table.RequestSort: `a[key]` is a string given by the
  table's `valueOf` function, so JavaScript's `<` on numbers or mixed types is
  not modelled.
- SortableTable.Table.Rerender: the rows are sequence values, so the model
  does not show aliasing. It does not show that `initialData` is safe from
  mutation because the sort runs on a spread copy; value semantics make that
  hold trivially.
