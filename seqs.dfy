/**
 * `Array.prototype.filter` on sequences, and the order-preserving
 * subsequence relation it establishes.
 */
module Seqs {

  /** `xs.filter(p)`: the elements satisfying `p`, in their original order. */
  function Filter<T(==)>(xs: seq<T>, p: T -> bool): (r: seq<T>)
    ensures |r| <= |xs|
  {
    if xs == [] then []
    else (if p(xs[0]) then [xs[0]] else []) + Filter(xs[1..], p)
  }

  /**
   * What `Filter` keeps: only elements of `xs` satisfying `p`, and every such
   * element with all of its occurrences.
   */
  lemma {:induction false} FilterMembers<T>(xs: seq<T>, p: T -> bool)
    ensures forall i :: 0 <= i < |Filter(xs, p)| ==> Filter(xs, p)[i] in xs && p(Filter(xs, p)[i])
    ensures forall x | x in xs && p(x) :: x in Filter(xs, p)
    ensures multiset(Filter(xs, p)) <= multiset(xs)
    ensures forall x | x in xs && p(x) :: multiset(Filter(xs, p))[x] == multiset(xs)[x]
  {
    if xs != [] {
      FilterMembers(xs[1..], p);
      assert xs == [xs[0]] + xs[1..];
    }
  }

  /** `a` can be obtained from `b` by deleting elements, without reordering. */
  predicate IsSubsequence<T(==)>(a: seq<T>, b: seq<T>)
    decreases |b|
  {
    if a == [] then true
    else if b == [] then false
    else if a[0] == b[0] then IsSubsequence(a[1..], b[1..])
    else IsSubsequence(a, b[1..])
  }

  /** Filtering keeps the surviving elements in their original order. */
  lemma {:induction false} FilterIsSubsequence<T>(xs: seq<T>, p: T -> bool)
    ensures IsSubsequence(Filter(xs, p), xs)
  {
    if xs != [] {
      var rest := Filter(xs[1..], p);
      FilterIsSubsequence(xs[1..], p);
      if p(xs[0]) {
        assert Filter(xs, p) == [xs[0]] + rest;
      } else {
        assert Filter(xs, p) == rest;
        if rest != [] {
          FilterMembers(xs[1..], p);
          assert p(rest[0]);
        }
      }
    }
  }

  /** A predicate no element satisfies removes everything. */
  lemma {:induction false} FilterNone<T>(xs: seq<T>, p: T -> bool)
    requires forall x :: x in xs ==> !p(x)
    ensures Filter(xs, p) == []
  {
    if xs != [] {
      FilterNone(xs[1..], p);
    }
  }

  /** A predicate every element satisfies removes nothing. */
  lemma {:induction false} FilterAll<T>(xs: seq<T>, p: T -> bool)
    requires forall x :: x in xs ==> p(x)
    ensures Filter(xs, p) == xs
  {
    if xs != [] {
      FilterAll(xs[1..], p);
    }
  }

  lemma {:induction false} FilterAppend<T>(xs: seq<T>, ys: seq<T>, p: T -> bool)
    ensures Filter(xs + ys, p) == Filter(xs, p) + Filter(ys, p)
  {
    if xs == [] {
      assert xs + ys == ys;
    } else {
      var zs := xs + ys;
      var head := if p(xs[0]) then [xs[0]] else [];
      assert zs[0] == xs[0] && zs[1..] == xs[1..] + ys;
      FilterAppend(xs[1..], ys, p);
      calc {
        Filter(zs, p);
        head + Filter(xs[1..] + ys, p);
        head + (Filter(xs[1..], p) + Filter(ys, p));
        (head + Filter(xs[1..], p)) + Filter(ys, p);
        Filter(xs, p) + Filter(ys, p);
      }
    }
  }

  /** Filtering a prefix yields a prefix of the filtered whole. */
  lemma FilterPrefix<T>(xs: seq<T>, i: nat, p: T -> bool)
    requires i <= |xs|
    ensures |Filter(xs[..i], p)| <= |Filter(xs, p)|
    ensures Filter(xs[..i], p) == Filter(xs, p)[..|Filter(xs[..i], p)|]
  {
    assert xs == xs[..i] + xs[i..];
    FilterAppend(xs[..i], xs[i..], p);
  }

  /** A stricter predicate keeps a subsequence of what a weaker one keeps. */
  lemma {:induction false} FilterMonotone<T>(xs: seq<T>, strict: T -> bool, weak: T -> bool)
    requires forall x :: strict(x) ==> weak(x)
    ensures IsSubsequence(Filter(xs, strict), Filter(xs, weak))
  {
    if xs != [] {
      var s, w := Filter(xs[1..], strict), Filter(xs[1..], weak);
      FilterMonotone(xs[1..], strict, weak);
      if strict(xs[0]) {
        assert Filter(xs, strict) == [xs[0]] + s;
        assert Filter(xs, weak) == [xs[0]] + w;
      } else if weak(xs[0]) {
        assert Filter(xs, strict) == s;
        assert Filter(xs, weak) == [xs[0]] + w;
        if s != [] {
          FilterMembers(xs[1..], strict);
          assert strict(s[0]);
        }
      } else {
        assert Filter(xs, strict) == s;
        assert Filter(xs, weak) == w;
      }
    }
  }

  lemma {:induction false} SubsequenceLength<T>(a: seq<T>, b: seq<T>)
    requires IsSubsequence(a, b)
    ensures |a| <= |b|
    decreases |b|
  {
    if a != [] {
      if a[0] == b[0] {
        SubsequenceLength(a[1..], b[1..]);
      } else {
        SubsequenceLength(a, b[1..]);
      }
    }
  }

  /** A prefix of a subsequence is a subsequence. */
  lemma {:induction false} SubsequencePrefix<T>(a: seq<T>, b: seq<T>, k: nat)
    requires IsSubsequence(a, b) && k <= |a|
    ensures IsSubsequence(a[..k], b)
    decreases |b|
  {
    if k == 0 {
      assert a[..k] == [];
    } else if a[0] == b[0] {
      SubsequencePrefix(a[1..], b[1..], k - 1);
      assert a[..k][0] == b[0] && a[..k][1..] == a[1..][..k - 1];
    } else {
      SubsequencePrefix(a, b[1..], k);
      assert a[..k][0] != b[0];
    }
  }

  /** Two filters applied one after the other commute. */
  lemma {:induction false} FilterCommute<T>(xs: seq<T>, p: T -> bool, q: T -> bool)
    ensures Filter(Filter(xs, p), q) == Filter(Filter(xs, q), p)
  {
    if xs != [] {
      var x := xs[0];
      FilterCommute(xs[1..], p, q);
      var fp := if p(x) then [x] else [];
      var fq := if q(x) then [x] else [];
      FilterAppend(fp, Filter(xs[1..], p), q);
      FilterAppend(fq, Filter(xs[1..], q), p);
      assert Filter(fp, q) == Filter(fq, p);
    }
  }

  /** Filtering respects permutation: equal multisets give equal filtered multisets. */
  lemma FilterPermutation<T>(xs: seq<T>, ys: seq<T>, p: T -> bool)
    requires multiset(xs) == multiset(ys)
    ensures multiset(Filter(xs, p)) == multiset(Filter(ys, p))
  {
    FilterMembers(xs, p);
    FilterMembers(ys, p);
    forall x ensures multiset(Filter(xs, p))[x] == multiset(Filter(ys, p))[x] {
      if x in xs && p(x) {
      } else {
        assert x !in Filter(xs, p);
        assert x !in Filter(ys, p);
      }
    }
  }
}
