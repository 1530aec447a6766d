/**
 * The column sort shared by the city directory page and the generic
 * sortable-table hook: the three-way comparator both of them pass to
 * `Array.prototype.sort`, the stable sort that ECMAScript requires of
 * `sort` (modelled as an insertion sort on a copy), and the rule by which a
 * click on a column header changes the sort configuration.
 */
module Sorting {
  import opened Wrappers
  import opened Text
  import opened Seqs

  datatype Direction = Asc | Desc

  /** `{ key, direction }`; the page and the hook hold `null` before the first click. */
  datatype SortConfig<K> = SortConfig(key: K, direction: Direction)

  /**
   * `requestSort(key)`: descending exactly when the same column is currently
   * ascending, ascending in every other case.
   */
  function NextSortConfig<K(==)>(current: Option<SortConfig<K>>, key: K): (next: SortConfig<K>)
    ensures next.key == key
    ensures next.direction == Desc <==> current == Some(SortConfig(key, Asc))
  {
    var direction :=
      if current.Some? && current.value.key == key && current.value.direction == Asc
      then Desc else Asc;
    SortConfig(key, direction)
  }

  /** Clicking the same column twice restores the configuration it produced. */
  lemma SortToggleAlternates<K>(current: Option<SortConfig<K>>, key: K)
    ensures var once := NextSortConfig(current, key);
            var twice := NextSortConfig(Some(once), key);
            NextSortConfig(Some(twice), key) == once && twice.direction != once.direction
  {
  }

  /**
   * The comparator `(a, b) => a < b ? (asc ? -1 : 1) : a > b ? (asc ? 1 : -1) : 0`
   * applied to the two sort values.
   */
  function Comparator(d: Direction, a: string, b: string): (r: int)
    ensures r == -1 || r == 0 || r == 1
  {
    if Less(a, b) then (if d == Asc then -1 else 1)
    else if Less(b, a) then (if d == Asc then 1 else -1)
    else 0
  }

  /** `a` must be placed before `b`: the comparator returns a negative number. */
  predicate Precedes(d: Direction, a: string, b: string)
  {
    Comparator(d, a, b) < 0
  }

  /**
   * The comparator is consistent in the sense ECMAScript requires: antisymmetric,
   * zero exactly on equal values, and ordering by `<` ascending or by `>` descending.
   */
  lemma ComparatorConsistent(d: Direction, a: string, b: string)
    ensures Comparator(d, a, b) == -Comparator(d, b, a)
    ensures Comparator(d, a, b) == 0 <==> a == b
    ensures Precedes(d, a, b) <==> if d == Asc then Less(a, b) else Less(b, a)
  {
    LessTotal(a, b);
    LessIrreflexive(a);
    if Less(a, b) && Less(b, a) {
      LessTransitive(a, b, a);
    }
  }

  lemma PrecedesTransitive(d: Direction, a: string, b: string, c: string)
    requires Precedes(d, a, b) && Precedes(d, b, c)
    ensures Precedes(d, a, c)
  {
    ComparatorConsistent(d, a, b);
    ComparatorConsistent(d, b, c);
    ComparatorConsistent(d, a, c);
    if d == Asc {
      LessTransitive(a, b, c);
    } else {
      LessTransitive(c, b, a);
    }
  }

  /** `a < b <= c` gives `a < c` in the comparator's order. */
  lemma PrecedesBeforeNotPreceding(d: Direction, a: string, b: string, c: string)
    requires Precedes(d, a, b) && !Precedes(d, c, b)
    ensures Precedes(d, a, c)
  {
    ComparatorConsistent(d, c, b);
    ComparatorConsistent(d, b, c);
    if b != c {
      PrecedesTransitive(d, a, b, c);
    }
  }

  /** Values neither of which precedes the other are equal. */
  lemma NeitherPrecedesEqual(d: Direction, a: string, b: string)
    requires !Precedes(d, a, b) && !Precedes(d, b, a)
    ensures a == b
  {
    ComparatorConsistent(d, a, b);
    ComparatorConsistent(d, b, a);
  }

  /** No element of `s` must come after a later one. */
  predicate SortedBy<T>(s: seq<T>, key: T -> string, d: Direction)
  {
    forall i, j :: 0 <= i < j < |s| ==> !Precedes(d, key(s[j]), key(s[i]))
  }

  /** The elements whose sort value is `v`. */
  function HasKey<T>(key: T -> string, v: string): T -> bool
  {
    x => key(x) == v
  }

  /** Places `x` after every element that does not come strictly after it. */
  function Insert<T(==)>(x: T, s: seq<T>, key: T -> string, d: Direction): (r: seq<T>)
    ensures |r| == |s| + 1
    ensures multiset(r) == multiset(s) + multiset{x}
  {
    if s == [] then [x]
    else if Precedes(d, key(x), key(s[0])) then [x] + s
    else
      assert s == [s[0]] + s[1..];
      [s[0]] + Insert(x, s[1..], key, d)
  }

  /**
   * `[...xs].sort(comparator)`: each element, in arrival order, is inserted into
   * the sorted copy of the elements before it.
   */
  function SortBy<T(==)>(xs: seq<T>, key: T -> string, d: Direction): (r: seq<T>)
    ensures |r| == |xs|
    ensures multiset(r) == multiset(xs)
    decreases |xs|
  {
    if xs == [] then []
    else
      assert xs == xs[..|xs| - 1] + [xs[|xs| - 1]];
      Insert(xs[|xs| - 1], SortBy(xs[..|xs| - 1], key, d), key, d)
  }

  lemma {:induction false} InsertSorted<T>(x: T, s: seq<T>, key: T -> string, d: Direction)
    requires SortedBy(s, key, d)
    ensures SortedBy(Insert(x, s, key, d), key, d)
  {
    if s == [] {
    } else if Precedes(d, key(x), key(s[0])) {
      var r := [x] + s;
      forall i, j | 0 <= i < j < |r| ensures !Precedes(d, key(r[j]), key(r[i])) {
        if i == 0 && Precedes(d, key(s[j - 1]), key(x)) {
          PrecedesTransitive(d, key(s[j - 1]), key(x), key(s[0]));
          ComparatorConsistent(d, key(s[0]), key(s[0]));
          assert false;
        }
      }
    } else {
      var t := Insert(x, s[1..], key, d);
      InsertSorted(x, s[1..], key, d);
      var r := [s[0]] + t;
      forall i, j | 0 <= i < j < |r| ensures !Precedes(d, key(r[j]), key(r[i])) {
        if i == 0 {
          var y := t[j - 1];
          assert y in multiset(t);
          if y != x {
            assert y in s[1..];
            var k :| 1 <= k < |s| && s[k] == y;
          }
        }
      }
    }
  }

  lemma {:induction false} SortByIsSorted<T>(xs: seq<T>, key: T -> string, d: Direction)
    ensures SortedBy(SortBy(xs, key, d), key, d)
    decreases |xs|
  {
    if xs != [] {
      SortByIsSorted(xs[..|xs| - 1], key, d);
      InsertSorted(xs[|xs| - 1], SortBy(xs[..|xs| - 1], key, d), key, d);
    }
  }

  /** In a sorted sequence, no element has the sort value of one that precedes its head. */
  lemma NoEqualKeyAfterSmaller<T>(x: T, s: seq<T>, key: T -> string, d: Direction)
    requires SortedBy(s, key, d) && s != [] && Precedes(d, key(x), key(s[0]))
    ensures Filter(s, HasKey(key, key(x))) == []
  {
    forall y | y in s ensures key(y) != key(x) {
      var k :| 0 <= k < |s| && s[k] == y;
      ComparatorConsistent(d, key(s[0]), key(s[0]));
      PrecedesBeforeNotPreceding(d, key(x), key(s[0]), key(y));
      ComparatorConsistent(d, key(x), key(y));
    }
    FilterNone(s, HasKey(key, key(x)));
  }

  /** Inserting `x` puts it after every element with the same sort value. */
  lemma {:induction false} InsertStable<T>(x: T, s: seq<T>, key: T -> string, d: Direction, v: string)
    requires SortedBy(s, key, d)
    ensures Filter(Insert(x, s, key, d), HasKey(key, v))
         == Filter(s, HasKey(key, v)) + if key(x) == v then [x] else []
  {
    var p := HasKey(key, v);
    var tail := if key(x) == v then [x] else [];
    assert Filter([x], p) == tail;
    if s == [] {
      assert Insert(x, s, key, d) == [x];
    } else if Precedes(d, key(x), key(s[0])) {
      assert Insert(x, s, key, d) == [x] + s;
      FilterAppend([x], s, p);
      if key(x) == v {
        NoEqualKeyAfterSmaller(x, s, key, d);
      }
    } else {
      var rest := Insert(x, s[1..], key, d);
      assert Insert(x, s, key, d) == [s[0]] + rest;
      InsertStable(x, s[1..], key, d, v);
      RegroupFilter(s, rest, p, tail);
    }
  }

  /** Re-associates the filtered head of `s` with the rest of an insertion. */
  lemma RegroupFilter<T>(s: seq<T>, rest: seq<T>, p: T -> bool, tail: seq<T>)
    requires s != [] && Filter(rest, p) == Filter(s[1..], p) + tail
    ensures Filter([s[0]] + rest, p) == Filter(s, p) + tail
  {
    assert s == [s[0]] + s[1..];
    FilterAppend([s[0]], rest, p);
    FilterAppend([s[0]], s[1..], p);
  }

  /** Elements with equal sort values keep their arrival order. */
  lemma {:induction false} SortByIsStable<T>(xs: seq<T>, key: T -> string, d: Direction, v: string)
    ensures Filter(SortBy(xs, key, d), HasKey(key, v)) == Filter(xs, HasKey(key, v))
    decreases |xs|
  {
    if xs != [] {
      var init, last := xs[..|xs| - 1], xs[|xs| - 1];
      var sortedInit := SortBy(init, key, d);
      assert SortBy(xs, key, d) == Insert(last, sortedInit, key, d);
      SortByIsStable(init, key, d, v);
      SortByIsSorted(init, key, d);
      InsertStable(last, sortedInit, key, d, v);
      AppendLastFilter(xs, HasKey(key, v));
    }
  }

  lemma AppendLastFilter<T>(xs: seq<T>, p: T -> bool)
    requires xs != []
    ensures Filter(xs, p)
         == Filter(xs[..|xs| - 1], p) + if p(xs[|xs| - 1]) then [xs[|xs| - 1]] else []
  {
    var init, last := xs[..|xs| - 1], xs[|xs| - 1];
    assert xs == init + [last];
    FilterAppend(init, [last], p);
    assert Filter([last], p) == if p(last) then [last] else [];
  }

  /**
   * Two sequences sorted by the same comparator that agree on the order of the
   * elements of every sort value are equal: a stable sort has one result.
   */
  lemma {:induction false} StableSortUnique<T>(r1: seq<T>, r2: seq<T>, key: T -> string, d: Direction)
    requires SortedBy(r1, key, d) && SortedBy(r2, key, d)
    requires forall v :: Filter(r1, HasKey(key, v)) == Filter(r2, HasKey(key, v))
    ensures r1 == r2
    decreases |r1|
  {
    if r1 == [] {
      EmptyByFilters(r2, r1, key);
    } else if r2 == [] {
      EmptyByFilters(r1, r2, key);
    } else {
      SortedHeadsEqual(r1, r2, key, d);
      TailsAgree(r1, r2, key);
      StableSortUnique(r1[1..], r2[1..], key, d);
      assert r1 == [r1[0]] + r1[1..] && r2 == [r2[0]] + r2[1..];
    }
  }

  /** A sequence whose every key class matches that of an empty one is empty. */
  lemma EmptyByFilters<T>(r: seq<T>, empty: seq<T>, key: T -> string)
    requires empty == []
    requires forall v :: Filter(r, HasKey(key, v)) == Filter(empty, HasKey(key, v))
    ensures r == []
  {
    var v := if r == [] then "" else key(r[0]);
    assert Filter(empty, HasKey(key, v)) == [];
    HeadClassNonEmpty(r, key, v);
  }

  lemma HeadClassNonEmpty<T>(r: seq<T>, key: T -> string, v: string)
    ensures r != [] && v == key(r[0]) ==> Filter(r, HasKey(key, v)) != []
  {
    if r != [] && v == key(r[0]) {
      assert Filter(r, HasKey(key, v)) == [r[0]] + Filter(r[1..], HasKey(key, v));
    }
  }

  /** An element of a sorted sequence does not precede its head. */
  lemma HeadNotAfter<T>(r: seq<T>, y: T, key: T -> string, d: Direction)
    requires SortedBy(r, key, d) && r != [] && y in r
    ensures !Precedes(d, key(y), key(r[0]))
  {
    var k :| 0 <= k < |r| && r[k] == y;
    ComparatorConsistent(d, key(r[0]), key(r[0]));
  }

  lemma SortedHeadsEqual<T>(r1: seq<T>, r2: seq<T>, key: T -> string, d: Direction)
    requires SortedBy(r1, key, d) && SortedBy(r2, key, d) && r1 != [] && r2 != []
    requires forall v :: Filter(r1, HasKey(key, v)) == Filter(r2, HasKey(key, v))
    ensures r1[0] == r2[0]
  {
    var a, b := r1[0], r2[0];
    assert Filter(r1, HasKey(key, key(a))) == [a] + Filter(r1[1..], HasKey(key, key(a)));
    FilterMembers(r2, HasKey(key, key(a)));
    assert Filter(r2, HasKey(key, key(a)))[0] == a;
    assert a in r2;
    HeadNotAfter(r2, a, key, d);
    assert Filter(r2, HasKey(key, key(b))) == [b] + Filter(r2[1..], HasKey(key, key(b)));
    FilterMembers(r1, HasKey(key, key(b)));
    assert Filter(r1, HasKey(key, key(b)))[0] == b;
    assert b in r1;
    HeadNotAfter(r1, b, key, d);
    NeitherPrecedesEqual(d, key(a), key(b));
    assert Filter(r1, HasKey(key, key(a)))[0] == Filter(r2, HasKey(key, key(a)))[0];
  }

  lemma TailsAgree<T>(r1: seq<T>, r2: seq<T>, key: T -> string)
    requires r1 != [] && r2 != [] && r1[0] == r2[0]
    requires forall v :: Filter(r1, HasKey(key, v)) == Filter(r2, HasKey(key, v))
    ensures forall w :: Filter(r1[1..], HasKey(key, w)) == Filter(r2[1..], HasKey(key, w))
  {
    forall w ensures Filter(r1[1..], HasKey(key, w)) == Filter(r2[1..], HasKey(key, w)) {
      TailAgrees(r1, r2, HasKey(key, w));
    }
  }

  lemma TailAgrees<T>(r1: seq<T>, r2: seq<T>, p: T -> bool)
    requires r1 != [] && r2 != [] && r1[0] == r2[0]
    requires Filter(r1, p) == Filter(r2, p)
    ensures Filter(r1[1..], p) == Filter(r2[1..], p)
  {
    var head := if p(r1[0]) then [r1[0]] else [];
    assert Filter(r1, p) == head + Filter(r1[1..], p);
    assert Filter(r2, p) == head + Filter(r2[1..], p);
    assert Filter(r1[1..], p) == (head + Filter(r1[1..], p))[|head|..];
    assert Filter(r2[1..], p) == (head + Filter(r2[1..], p))[|head|..];
  }

  /**
   * `SortBy` is exactly the stable sort: a sequence equals it iff it is a
   * permutation of the input, sorted by the comparator, and keeps the arrival
   * order of elements with equal sort values.
   */
  lemma SortByCharacterized<T>(xs: seq<T>, r: seq<T>, key: T -> string, d: Direction)
    ensures r == SortBy(xs, key, d) <==>
            && multiset(r) == multiset(xs)
            && SortedBy(r, key, d)
            && forall v :: Filter(r, HasKey(key, v)) == Filter(xs, HasKey(key, v))
  {
    var s := SortBy(xs, key, d);
    SortByIsSorted(xs, key, d);
    forall v ensures Filter(s, HasKey(key, v)) == Filter(xs, HasKey(key, v)) {
      SortByIsStable(xs, key, d, v);
    }
    if && multiset(r) == multiset(xs)
       && SortedBy(r, key, d)
       && forall v :: Filter(r, HasKey(key, v)) == Filter(xs, HasKey(key, v))
    {
      StableSortUnique(r, s, key, d);
    }
  }

  /** Removing elements from a sorted sequence leaves it sorted. */
  lemma {:induction false} FilterSorted<T>(s: seq<T>, q: T -> bool, key: T -> string, d: Direction)
    requires SortedBy(s, key, d)
    ensures SortedBy(Filter(s, q), key, d)
  {
    if s != [] {
      var rest := Filter(s[1..], q);
      FilterSorted(s[1..], q, key, d);
      if q(s[0]) {
        FilterMembers(s[1..], q);
        var r := [s[0]] + rest;
        forall i, j | 0 <= i < j < |r| ensures !Precedes(d, key(r[j]), key(r[i])) {
          if i == 0 {
            HeadNotAfter(s, rest[j - 1], key, d);
          }
        }
      }
    }
  }

  /**
   * Filtering a stably sorted sequence gives the stable sort of the filtered
   * sequence: with a stable sort, "sort then filter" and "filter then sort"
   * produce the same rows in the same order.
   */
  lemma SortThenFilter<T>(xs: seq<T>, q: T -> bool, key: T -> string, d: Direction)
    ensures Filter(SortBy(xs, key, d), q) == SortBy(Filter(xs, q), key, d)
  {
    var sorted := SortBy(xs, key, d);
    var r := Filter(sorted, q);
    SortByIsSorted(xs, key, d);
    FilterSorted(sorted, q, key, d);
    FilterPermutation(sorted, xs, q);
    forall v ensures Filter(r, HasKey(key, v)) == Filter(Filter(xs, q), HasKey(key, v)) {
      SortByIsStable(xs, key, d, v);
      FilterCommute(sorted, q, HasKey(key, v));
      FilterCommute(xs, q, HasKey(key, v));
    }
    SortByCharacterized(Filter(xs, q), r, key, d);
  }
}
