/**
 A stable sort by a comparator, the model of `Array.prototype.sort` with a
 comparison function (stable since ES2019). `before(a, b)` holds when the
 comparator places `a` strictly before `b` (it returns a negative number).
 For a comparator that is a strict weak order every stable sort produces the
 same sequence, so insertion sort stands for the engine's algorithm.
 */
module Sorting {
  import opened Seqs

  /** `a` strictly before `b` is never symmetric, and "not before" is
      transitive (equivalently: `before` is negatively transitive). */
  ghost predicate StrictWeakOrder<T(!new)>(before: (T, T) -> bool)
  {
    && (forall a, b :: before(a, b) ==> !before(b, a))
    && (forall a, b, c :: before(a, c) ==> before(a, b) || before(b, c))
  }

  /** No element is placed strictly before one that precedes it. */
  predicate SortedBy<T>(s: seq<T>, before: (T, T) -> bool)
  {
    forall i, j :: 0 <= i < j < |s| ==> !before(s[j], s[i])
  }

  /** Place `x` at the end of `s`, then move it forwards past the trailing
      elements it must precede. */
  function Insert<T>(s: seq<T>, x: T, before: (T, T) -> bool): (r: seq<T>)
    ensures |r| == |s| + 1
    ensures multiset(r) == multiset(s) + multiset{x}
  {
    if |s| == 0 then [x]
    else
      var last := s[|s| - 1];
      assert s == s[..|s| - 1] + [last];
      if before(x, last) then Insert(s[..|s| - 1], x, before) + [last]
      else s + [x]
  }

  /** Stable insertion sort: the elements are inserted in input order. */
  function SortBy<T>(s: seq<T>, before: (T, T) -> bool): (r: seq<T>)
    ensures |r| == |s|
    ensures multiset(r) == multiset(s)
  {
    if |s| == 0 then []
    else
      assert s == s[..|s| - 1] + [s[|s| - 1]];
      Insert(SortBy(s[..|s| - 1], before), s[|s| - 1], before)
  }

  lemma {:induction false} InsertSorted<T(!new)>(s: seq<T>, x: T, before: (T, T) -> bool)
    requires StrictWeakOrder(before)
    requires SortedBy(s, before)
    ensures SortedBy(Insert(s, x, before), before)
  {
    if |s| > 0 {
      var init, last := s[..|s| - 1], s[|s| - 1];
      if before(x, last) {
        InsertSorted(init, x, before);
        var r := Insert(init, x, before);
        forall i | 0 <= i < |r|
          ensures !before(last, r[i])
        {
          assert r[i] in multiset(init) + multiset{x} by {
            assert r[i] in multiset(r);
          }
          if r[i] != x {
            var k :| 0 <= k < |init| && init[k] == r[i];
            assert s[k] == init[k];
          }
        }
      } else {
        forall i | 0 <= i < |s|
          ensures !before(x, s[i])
        {
          if i < |s| - 1 {
            assert !before(last, s[i]);
          }
        }
      }
    }
  }

  /** Under a strict weak order the result is sorted. */
  lemma {:induction false} SortBySorted<T(!new)>(s: seq<T>, before: (T, T) -> bool)
    requires StrictWeakOrder(before)
    ensures SortedBy(SortBy(s, before), before)
  {
    if |s| > 0 {
      SortBySorted(s[..|s| - 1], before);
      InsertSorted(SortBy(s[..|s| - 1], before), s[|s| - 1], before);
    }
  }

  /** Elements the comparator does not separate keep their relative order. */
  lemma {:induction false} InsertStable<T>(s: seq<T>, x: T, before: (T, T) -> bool, p: T -> bool)
    requires forall a, b :: p(a) && p(b) ==> !before(a, b)
    ensures Keep(Insert(s, x, before), p) == Keep(s, p) + (if p(x) then [x] else [])
  {
    if |s| == 0 {
      assert Keep([x], p) == (if p(x) then [x] else []) + Keep([], p);
    } else {
      var init, last := s[..|s| - 1], s[|s| - 1];
      assert s == init + [last];
      KeepConcat(init, [last], p);
      assert Keep([last], p) == (if p(last) then [last] else []) + Keep([], p);
      if before(x, last) {
        InsertStable(init, x, before, p);
        KeepConcat(Insert(init, x, before), [last], p);
      } else {
        KeepConcat(s, [x], p);
        assert Keep([x], p) == (if p(x) then [x] else []) + Keep([], p);
      }
    }
  }

  /** Stability: every class of mutually unordered elements comes out in its
      input order. */
  lemma {:induction false} SortByStable<T>(s: seq<T>, before: (T, T) -> bool, p: T -> bool)
    requires forall a, b :: p(a) && p(b) ==> !before(a, b)
    ensures Keep(SortBy(s, before), p) == Keep(s, p)
  {
    if |s| > 0 {
      var init, last := s[..|s| - 1], s[|s| - 1];
      SortByStable(init, before, p);
      InsertStable(SortBy(init, before), last, before, p);
      assert s == init + [last];
      KeepConcat(init, [last], p);
      assert Keep([last], p) == (if p(last) then [last] else []) + Keep([], p);
    }
  }

  /** The sorted sequence holds the same elements. */
  lemma SortByMember<T>(s: seq<T>, before: (T, T) -> bool, x: T)
    ensures x in SortBy(s, before) <==> x in s
  {
    var r := SortBy(s, before);
    assert x in r <==> x in multiset(r);
    assert x in s <==> x in multiset(s);
  }
}
