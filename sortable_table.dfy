/**
 * The generic `useSortableTable` hook: the rows it was given, the rows as
 * last sorted, and the current sort configuration. Every `requestSort`
 * sorts a copy of the given rows; nothing is sorted in place.
 */
module SortableTable {
  import opened Wrappers
  import opened Seqs
  import opened Sorting

  /**
   * A table over rows of type `T` with column keys `K`; `valueOf(row, key)`
   * is `row[key]`, compared as a string.
   */
  class Table<K(==), T(==)> {
    const valueOf: (T, K) -> string
    var initialData: seq<T>
    var sortedData: seq<T>
    var sortConfig: Option<SortConfig<K>>

    function Column(key: K): T -> string
    {
      row => valueOf(row, key)
    }

    /** First render: the rows as given, no sort configuration. */
    constructor (initialData: seq<T>, valueOf: (T, K) -> string)
      ensures this.initialData == initialData && this.valueOf == valueOf
      ensures sortedData == initialData && sortConfig.None?
    {
      this.valueOf := valueOf;
      this.initialData := initialData;
      sortedData := initialData;
      sortConfig := None;
    }

    /**
     * A later render with new rows: `useState` keeps the sorted rows and the
     * configuration; only the next `requestSort` sees the new rows.
     */
    method Rerender(data: seq<T>)
      modifies this
      ensures initialData == data
      ensures sortedData == old(sortedData) && sortConfig == old(sortConfig)
    {
      initialData := data;
    }

    /**
     * `requestSort(key)`: the configuration follows the toggle rule, and the
     * sorted rows are the stable sort of `initialData` by that key and
     * direction, whatever was shown before.
     */
    method RequestSort(key: K)
      modifies this
      ensures sortConfig == Some(NextSortConfig(old(sortConfig), key))
      ensures sortedData == SortBy(initialData, Column(key), sortConfig.value.direction)
      ensures initialData == old(initialData)
    {
      var next := NextSortConfig(sortConfig, key);
      sortConfig := Some(next);
      sortedData := SortBy(initialData, Column(key), next.direction);
    }
  }

  /**
   * Sorting a table: a fresh table sorted by `key` shows a permutation of its
   * rows, ordered by `key` ascending, with equal values in arrival order; a
   * second click shows them descending, and a third ascending again, equal
   * to the first result.
   */
  method SortTwiceScenario<K(==), T(==)>(rows: seq<T>, valueOf: (T, K) -> string, key: K)
    returns (first: seq<T>, second: seq<T>, third: seq<T>)
    ensures multiset(first) == multiset(rows) && multiset(second) == multiset(rows)
    ensures SortedBy(first, (row: T) => valueOf(row, key), Asc)
    ensures SortedBy(second, (row: T) => valueOf(row, key), Desc)
    ensures third == first
  {
    var table := new Table(rows, valueOf);
    table.RequestSort(key);
    first := table.sortedData;
    table.RequestSort(key);
    second := table.sortedData;
    table.RequestSort(key);
    third := table.sortedData;
    SortByIsSorted(rows, table.Column(key), Asc);
    SortByIsSorted(rows, table.Column(key), Desc);
  }
}
