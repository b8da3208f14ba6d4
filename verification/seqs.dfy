/**
 Sequence helpers the views share: JavaScript's `Array.prototype.filter`
 (`Keep`), removal by position (`filter((_, i) => i !== index)`), and the
 insertion-ordered contents of a JavaScript `Set` built by repeated `add`.
 */
module Seqs {

  // ---------------------------------------------------------------------------
  // filter
  // ---------------------------------------------------------------------------

  /** `s.filter(p)`: the elements satisfying `p`, in their original order. */
  function Keep<T>(s: seq<T>, p: T -> bool): (r: seq<T>)
    ensures |r| <= |s|
    ensures forall i :: 0 <= i < |r| ==> p(r[i])
  {
    if |s| == 0 then []
    else (if p(s[0]) then [s[0]] else []) + Keep(s[1..], p)
  }

  /** An element survives the filter exactly when it was there and passes. */
  lemma {:induction false} KeepMember<T>(s: seq<T>, p: T -> bool, x: T)
    ensures x in Keep(s, p) <==> x in s && p(x)
  {
    if |s| > 0 {
      KeepMember(s[1..], p, x);
      assert s == [s[0]] + s[1..];
    }
  }

  /** Filtering distributes over concatenation, so order is kept. */
  lemma {:induction false} KeepConcat<T>(a: seq<T>, b: seq<T>, p: T -> bool)
    ensures Keep(a + b, p) == Keep(a, p) + Keep(b, p)
  {
    if |a| == 0 {
      assert a + b == b;
    } else {
      assert (a + b)[1..] == a[1..] + b;
      KeepConcat(a[1..], b, p);
    }
  }

  /** Filtering everything out leaves nothing; passing everything keeps all. */
  lemma {:induction false} KeepAll<T>(s: seq<T>, p: T -> bool)
    requires forall i :: 0 <= i < |s| ==> p(s[i])
    ensures Keep(s, p) == s
  {
    if |s| > 0 {
      KeepAll(s[1..], p);
    }
  }

  /** The positions of `s` whose element passes `p`. */
  function PassingPositions<T>(s: seq<T>, p: T -> bool): set<nat>
  {
    set i: nat | i < |s| && p(s[i])
  }

  /** Appending one element adds its position exactly when it passes. */
  lemma PassingPositionsSnoc<T>(t: seq<T>, x: T, p: T -> bool)
    ensures PassingPositions(t + [x], p) == PassingPositions(t, p) + (if p(x) then {|t|} else {})
    ensures |t| !in PassingPositions(t, p)
  {
    var s := t + [x];
    forall i: nat
      ensures i in PassingPositions(s, p) <==> i in PassingPositions(t, p) + (if p(x) then {|t|} else {})
    {
      if i < |t| {
        assert s[i] == t[i];
      }
    }
  }

  /** The filter keeps one element per passing position. */
  lemma {:induction false} KeepCount<T>(s: seq<T>, p: T -> bool)
    ensures |Keep(s, p)| == |PassingPositions(s, p)|
  {
    if |s| > 0 {
      var t, x := s[..|s| - 1], s[|s| - 1];
      assert s == t + [x];
      KeepCount(t, p);
      KeepConcat(t, [x], p);
      assert [x][1..] == [];
      PassingPositionsSnoc(t, x, p);
    }
  }

  /** The filter leaves nothing exactly when no element passes. */
  lemma KeepEmpty<T>(s: seq<T>, p: T -> bool)
    ensures |Keep(s, p)| == 0 <==> forall i :: 0 <= i < |s| ==> !p(s[i])
  {
    KeepMembers(s, p);
    if |Keep(s, p)| > 0 {
      assert Keep(s, p)[0] in Keep(s, p);
    } else {
      forall i | 0 <= i < |s|
        ensures !p(s[i])
      {
        assert s[i] in s;
      }
    }
  }

  /** The filter keeps every copy of a passing value and none of the others. */
  lemma {:induction false} KeepMultiplicity<T>(s: seq<T>, p: T -> bool, x: T)
    ensures multiset(Keep(s, p))[x] == if p(x) then multiset(s)[x] else 0
  {
    if |s| > 0 {
      KeepMultiplicity(s[1..], p, x);
      assert s == [s[0]] + s[1..];
      assert multiset(s) == multiset([s[0]]) + multiset(s[1..]);
    }
  }

  // ---------------------------------------------------------------------------
  // removal by index
  // ---------------------------------------------------------------------------

  /** `s.filter((_, i) => i !== index)` */
  function RemoveAt<T>(s: seq<T>, index: int): (r: seq<T>)
    ensures |r| == if 0 <= index < |s| then |s| - 1 else |s|
  {
    if |s| == 0 then []
    else (if index == 0 then [] else [s[0]]) + RemoveAt(s[1..], index - 1)
  }

  /** Removing position `index` keeps everything before and after it, in
      order; an index outside the sequence removes nothing. */
  lemma {:induction false} RemoveAtSlices<T>(s: seq<T>, index: int)
    ensures 0 <= index < |s| ==> RemoveAt(s, index) == s[..index] + s[index + 1..]
    ensures !(0 <= index < |s|) ==> RemoveAt(s, index) == s
  {
    if |s| > 0 {
      var tail := s[1..];
      RemoveAtSlices(tail, index - 1);
      if index == 0 {
        assert s[..0] + s[1..] == tail;
      } else if 0 < index < |s| {
        assert s[..index] == [s[0]] + tail[..index - 1];
        assert s[index + 1..] == tail[index..];
      } else {
        assert s == [s[0]] + tail;
      }
    }
  }

  // ---------------------------------------------------------------------------
  // insertion-ordered sets
  // ---------------------------------------------------------------------------

  predicate NoDuplicates<T(==)>(s: seq<T>)
  {
    forall i, j :: 0 <= i < j < |s| ==> s[i] != s[j]
  }

  /** The contents of `new Set()` after `add(s[0])`, ..., `add(s[|s|-1])`,
      in iteration (first-insertion) order. */
  function Dedup<T(==)>(s: seq<T>): (r: seq<T>)
    ensures NoDuplicates(r)
    ensures forall i :: 0 <= i < |r| ==> r[i] in s
    ensures forall i :: 0 <= i < |s| ==> s[i] in r
    ensures |r| <= |s|
  {
    if |s| == 0 then []
    else
      var d := Dedup(s[..|s| - 1]);
      var x := s[|s| - 1];
      assert forall i :: 0 <= i < |s| - 1 ==> s[i] == s[..|s| - 1][i];
      if x in d then d else d + [x]
  }

  /** A sequence without repetitions has as many elements as its set. */
  lemma {:induction false} DistinctCardinality<T>(s: seq<T>)
    requires NoDuplicates(s)
    ensures |set x | x in s| == |s|
  {
    if |s| > 0 {
      var t := s[..|s| - 1];
      var x := s[|s| - 1];
      DistinctCardinality(t);
      assert x !in t;
      assert (set y | y in s) == (set y | y in t) + {x} by {
        assert s == t + [x];
      }
    }
  }

  /** The size of an insertion-ordered set is the number of distinct values
      added, and it is empty exactly when nothing was added. */
  lemma DedupSize<T>(s: seq<T>)
    ensures |Dedup(s)| == |set x | x in s|
    ensures |Dedup(s)| == 0 <==> |s| == 0
  {
    var d := Dedup(s);
    DistinctCardinality(d);
    assert (set x | x in d) == (set x | x in s);
    if |s| > 0 {
      assert s[0] in d;
    }
  }

  /** A value occurs at most once in a sequence without repetitions. */
  lemma {:induction false} NoDuplicatesMultiplicity<T>(s: seq<T>, x: T)
    requires NoDuplicates(s)
    ensures multiset(s)[x] <= 1
  {
    if |s| > 0 {
      var t, y := s[..|s| - 1], s[|s| - 1];
      assert s == t + [y];
      assert forall i :: 0 <= i < |t| ==> t[i] == s[i];
      NoDuplicatesMultiplicity(t, x);
      assert y !in t;
    }
  }

  /** Two equal entries make a value occur twice. */
  lemma RepeatedMultiplicity<T>(s: seq<T>, i: nat, j: nat)
    requires i < j < |s|
    ensures s[i] == s[j] ==> multiset(s)[s[j]] >= 2
  {
    assert s == s[..j] + [s[j]] + s[j + 1..];
    assert s[..j][i] == s[i];
  }

  /** Reordering a sequence without repetitions creates none. */
  lemma NoDuplicatesPermutation<T>(a: seq<T>, b: seq<T>)
    requires multiset(a) == multiset(b)
    requires NoDuplicates(a)
    ensures NoDuplicates(b)
  {
    forall i, j | 0 <= i < j < |b|
      ensures b[i] != b[j]
    {
      RepeatedMultiplicity(b, i, j);
      NoDuplicatesMultiplicity(a, b[j]);
    }
  }

  /** A subset is no larger than its superset. */
  lemma SubsetCardinality<T>(a: set<T>, b: set<T>)
    requires a <= b
    ensures |a| <= |b|
  {
    assert b == a + (b - a);
    assert a * (b - a) == {};
  }

  /** Every element of the filtered sequence is an element of the input that
      passes, and conversely. */
  lemma KeepMembers<T>(s: seq<T>, p: T -> bool)
    ensures forall x :: x in Keep(s, p) <==> x in s && p(x)
  {
  }

  /** A sequence without repetitions is its own insertion-ordered set. */
  lemma {:induction false} DedupDistinct<T>(s: seq<T>)
    requires NoDuplicates(s)
    ensures Dedup(s) == s
  {
    if |s| > 0 {
      var t := s[..|s| - 1];
      assert forall i :: 0 <= i < |t| ==> t[i] == s[i];
      DedupDistinct(t);
      assert s[|s| - 1] !in t;
      assert s == t + [s[|s| - 1]];
    }
  }
}
