/**
 * The `useCities` hook: the accumulated cities of the current search, the
 * offset of the next page, and the `loading`, `hasMore` and `error` flags.
 *
 * The hook is modelled as sequential transitions. `loadCities` is split at
 * its `await` into `StartLoad` and `FinishLoad`, and the network response is
 * the `FetchResult` argument of `FinishLoad`. In the application the hook's
 * closure reads `loading` and `offset` from the render in which it was
 * created, so the load that follows a search change can still see the
 * offset of the previous search; here a reset is always complete before the
 * next load reads the state.
 */
module CityStore {
  import opened Wrappers
  import opened CityTypes
  import Api

  /** `limit`: the number of cities requested per page. */
  const PageSize := 20

  const FallbackErrorMessage := "Failed to fetch cities"

  /** What the awaited fetch threw: an `Error` object, or any other value. */
  datatype Thrown = ThrownError(message: string) | ThrownValue

  /** The settled fetch: a page of cities, or a rejection. */
  datatype FetchResult = Fetched(page: seq<City>) | Rejected(thrown: Thrown)

  datatype LoadError = LoadError(message: string)

  /** `err instanceof Error ? err : new Error("Failed to fetch cities")`. */
  function ErrorFor(thrown: Thrown): (e: LoadError)
    ensures thrown.ThrownError? ==> e.message == thrown.message
    ensures thrown.ThrownValue? ==> e.message == FallbackErrorMessage
  {
    match thrown
    case ThrownError(message) => LoadError(message)
    case ThrownValue => LoadError(FallbackErrorMessage)
  }

  /** The pages in the order they arrived, joined. */
  function Concat(pages: seq<seq<City>>): seq<City>
  {
    if pages == [] then [] else Concat(pages[..|pages| - 1]) + pages[|pages| - 1]
  }

  class Store {
    var searchQuery: string
    var cities: seq<City>
    var loading: bool
    var hasMore: bool
    var offset: int
    var error: Option<LoadError>

    /** The pages appended since the last reset, oldest first. */
    ghost var pages: seq<seq<City>>

    /**
     * `cities` is exactly the pages loaded since the last reset, in arrival
     * order; `offset` counts them in units of the page size; after a load,
     * `hasMore` says whether the latest page was full.
     */
    ghost predicate Valid()
      reads this
    {
      && cities == Concat(pages)
      && offset == PageSize * |pages|
      && (pages != [] ==> hasMore == (|pages[|pages| - 1]| == PageSize))
    }

    /** The hook's initial state. */
    constructor (searchQuery: string)
      ensures Valid()
      ensures this.searchQuery == searchQuery && pages == []
      ensures cities == [] && !loading && hasMore && offset == 0 && error.None?
    {
      this.searchQuery := searchQuery;
      cities := [];
      loading := false;
      hasMore := true;
      offset := 0;
      error := None;
      pages := [];
    }

    /**
     * `loadCities` up to its `await`: nothing happens while a load is in
     * flight; otherwise `loading` is set, `error` cleared, and
     * `fetchCities(searchQuery, 20, offset)` is issued.
     */
    method StartLoad() returns (call: Option<Api.CitiesArgs>)
      requires Valid()
      modifies this
      ensures Valid()
      ensures old(loading) ==> call.None? && unchanged(this)
      ensures !old(loading) ==>
                && call == Some(Api.CitiesArgs(Some(searchQuery), Some(PageSize), Some(offset)))
                && loading && error.None?
                && searchQuery == old(searchQuery) && cities == old(cities) && pages == old(pages)
                && hasMore == old(hasMore) && offset == old(offset)
    {
      if loading {
        return None;
      }
      loading := true;
      error := None;
      call := Some(Api.CitiesArgs(Some(searchQuery), Some(PageSize), Some(offset)));
    }

    /**
     * `loadCities` after its `await`. A page is appended after the cities
     * already loaded, `hasMore` becomes "the page was full" and the offset
     * advances by one page; a rejection is recorded in `error` and leaves the
     * cities, the offset and `hasMore` alone. Either way `loading` ends false.
     */
    method FinishLoad(result: FetchResult)
      requires Valid() && loading
      modifies this
      ensures Valid() && !loading && searchQuery == old(searchQuery)
      ensures result.Fetched? ==>
                && cities == old(cities) + result.page
                && hasMore == (|result.page| == PageSize)
                && offset == old(offset) + PageSize
                && error == old(error)
                && pages == old(pages) + [result.page]
      ensures result.Rejected? ==>
                && error == Some(ErrorFor(result.thrown))
                && cities == old(cities) && hasMore == old(hasMore) && offset == old(offset)
                && pages == old(pages)
    {
      match result {
        case Fetched(page) =>
          cities := cities + page;
          hasMore := |page| == PageSize;
          offset := offset + PageSize;
          pages := pages + [page];
          assert pages[..|pages| - 1] == old(pages);
        case Rejected(thrown) =>
          error := Some(ErrorFor(thrown));
      }
      loading := false;
    }

    /** A whole `loadCities` call whose fetch settles with `result`. */
    method LoadNext(result: FetchResult) returns (call: Option<Api.CitiesArgs>)
      requires Valid()
      modifies this
      ensures Valid()
      ensures old(loading) ==> call.None? && unchanged(this)
      ensures !old(loading) ==>
                && call == Some(Api.CitiesArgs(Some(searchQuery), Some(PageSize), Some(old(offset))))
                && !loading && searchQuery == old(searchQuery)
      ensures !old(loading) && result.Fetched? ==>
                && cities == old(cities) + result.page
                && hasMore == (|result.page| == PageSize)
                && offset == old(offset) + PageSize
                && error.None?
                && pages == old(pages) + [result.page]
      ensures !old(loading) && result.Rejected? ==>
                && error == Some(ErrorFor(result.thrown))
                && cities == old(cities) && hasMore == old(hasMore) && offset == old(offset)
                && pages == old(pages)
    {
      call := StartLoad();
      if call.Some? {
        FinishLoad(result);
      }
    }

    /** The search-change effect before it loads: no cities, offset zero; `hasMore` is kept. */
    method Reset()
      requires Valid()
      modifies this
      ensures Valid() && pages == []
      ensures cities == [] && offset == 0
      ensures searchQuery == old(searchQuery) && hasMore == old(hasMore)
      ensures loading == old(loading) && error == old(error)
    {
      cities := [];
      offset := 0;
      pages := [];
    }

    /**
     * A new search term: the list and the offset are reset, then the first
     * page of the new search is loaded.
     */
    method ChangeSearch(query: string, result: FetchResult) returns (call: Option<Api.CitiesArgs>)
      requires Valid()
      modifies this
      ensures Valid() && searchQuery == query
      ensures old(loading) ==>
                && call.None? && cities == [] && offset == 0 && loading
                && hasMore == old(hasMore) && error == old(error)
      ensures !old(loading) ==> call == Some(Api.CitiesArgs(Some(query), Some(PageSize), Some(0))) && !loading
      ensures !old(loading) && result.Fetched? ==>
                && cities == result.page && offset == PageSize && hasMore == (|result.page| == PageSize)
                && error.None?
      ensures !old(loading) && result.Rejected? ==>
                && cities == [] && offset == 0 && hasMore == old(hasMore)
                && error == Some(ErrorFor(result.thrown))
    {
      searchQuery := query;
      Reset();
      call := LoadNext(result);
    }
  }

  /**
   * Three page loads of 20, 20 and 7 cities with a rejected load between the
   * first two: the pages end up joined in request order, the failure leaves
   * no trace in the list, and `hasMore` turns false with the short page.
   */
  method PagingScenario(query: string, p1: seq<City>, p2: seq<City>, p3: seq<City>)
    returns (cities: seq<City>, hasMore: bool, offset: int, failure: Option<LoadError>)
    requires |p1| == PageSize && |p2| == PageSize && |p3| == 7
    ensures cities == p1 + p2 + p3
    ensures !hasMore && offset == 3 * PageSize
    ensures failure == Some(LoadError(FallbackErrorMessage))
  {
    var store := new Store(query);
    var call := store.LoadNext(Fetched(p1));
    assert store.hasMore && store.offset == PageSize;
    call := store.LoadNext(Rejected(ThrownValue));
    failure := store.error;
    assert store.cities == p1;
    call := store.LoadNext(Fetched(p2));
    assert call == Some(Api.CitiesArgs(Some(query), Some(PageSize), Some(PageSize)));
    assert store.hasMore && store.error.None?;
    call := store.LoadNext(Fetched(p3));
    cities, hasMore, offset := store.cities, store.hasMore, store.offset;
  }
}
