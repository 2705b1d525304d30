// InsertionSort of gravity_math: a stable in-place insertion sort over a
// bidirectional range.  The comparator of the source is modelled as an
// integer key, cmp(a, b) == (rank(a) < rank(b)): the only caller sorts
// paths by descending priority, cmp(p0, p1) == (p0.param2 > p1.param2),
// which is rank == -param2.

module Sorting {

  /**
   * Inserting x at the back of s and swapping it leftwards while it is
   * strictly cmp-less than its predecessor.
   */
  function InsertBack<T>(s: seq<T>, x: T, rank: T -> int): seq<T>
    decreases |s|
  {
    if |s| == 0 then [x]
    else if rank(x) < rank(s[|s| - 1]) then InsertBack(s[..|s| - 1], x, rank) + [s[|s| - 1]]
    else s + [x]
  }

  /** The sequence the insertion sort produces: each element inserted at the back in turn. */
  function SortSeq<T>(s: seq<T>, rank: T -> int): seq<T>
    decreases |s|
  {
    if |s| == 0 then [] else InsertBack(SortSeq(s[..|s| - 1], rank), s[|s| - 1], rank)
  }

  /** No element is cmp-less than its predecessor. */
  ghost predicate Sorted<T>(s: seq<T>, rank: T -> int)
  {
    forall i, j :: 0 <= i < j < |s| ==> rank(s[i]) <= rank(s[j])
  }

  /** The elements of s whose key is k, in order. */
  function WithKey<T>(s: seq<T>, rank: T -> int, k: int): seq<T>
    decreases |s|
  {
    if |s| == 0 then []
    else WithKey(s[..|s| - 1], rank, k) + (if rank(s[|s| - 1]) == k then [s[|s| - 1]] else [])
  }

  lemma {:induction false} InsertBackLength<T>(s: seq<T>, x: T, rank: T -> int)
    ensures |InsertBack(s, x, rank)| == |s| + 1
    decreases |s|
  {
    if |s| > 0 && rank(x) < rank(s[|s| - 1]) {
      InsertBackLength(s[..|s| - 1], x, rank);
    }
  }

  lemma {:induction false} InsertBackPermutes<T>(s: seq<T>, x: T, rank: T -> int)
    ensures multiset(InsertBack(s, x, rank)) == multiset(s) + multiset{x}
    decreases |s|
  {
    if |s| > 0 && rank(x) < rank(s[|s| - 1]) {
      var init := s[..|s| - 1];
      InsertBackPermutes(init, x, rank);
      assert s == init + [s[|s| - 1]];
    }
  }

  /** Every element of an InsertBack result is x or an element of s. */
  lemma {:induction false} InsertBackElements<T>(s: seq<T>, x: T, rank: T -> int)
    ensures forall y :: y in InsertBack(s, x, rank) ==> y == x || y in s
    decreases |s|
  {
    if |s| > 0 && rank(x) < rank(s[|s| - 1]) {
      var init := s[..|s| - 1];
      InsertBackElements(init, x, rank);
      forall y | y in InsertBack(s, x, rank) ensures y == x || y in s {
        if y in InsertBack(init, x, rank) {
          if y != x {
            assert y in init;
            assert init <= s;
          }
        }
      }
    }
  }

  lemma {:induction false} InsertBackSorted<T>(s: seq<T>, x: T, rank: T -> int)
    requires Sorted(s, rank)
    ensures Sorted(InsertBack(s, x, rank), rank)
    decreases |s|
  {
    if |s| > 0 && rank(x) < rank(s[|s| - 1]) {
      var init := s[..|s| - 1];
      var last := s[|s| - 1];
      assert Sorted(init, rank);
      InsertBackSorted(init, x, rank);
      InsertBackElements(init, x, rank);
      var r := InsertBack(init, x, rank);
      forall y | y in r ensures rank(y) <= rank(last) {
        if y != x {
          assert y in init;
          var i :| 0 <= i < |init| && init[i] == y;
          assert s[i] == y;
        }
      }
      forall i, j | 0 <= i < j < |r + [last]| ensures rank((r + [last])[i]) <= rank((r + [last])[j]) {
        if j == |r| {
          assert (r + [last])[i] == r[i];
          assert r[i] in r;
        }
      }
    }
  }

  /** The result is a permutation of the input. */
  lemma {:induction false} SortSeqPermutes<T>(s: seq<T>, rank: T -> int)
    ensures |SortSeq(s, rank)| == |s|
    ensures multiset(SortSeq(s, rank)) == multiset(s)
    decreases |s|
  {
    if |s| > 0 {
      var init := s[..|s| - 1];
      SortSeqPermutes(init, rank);
      InsertBackLength(SortSeq(init, rank), s[|s| - 1], rank);
      InsertBackPermutes(SortSeq(init, rank), s[|s| - 1], rank);
      assert s == init + [s[|s| - 1]];
    }
  }

  /** The result is sorted by the key. */
  lemma {:induction false} SortSeqSorted<T>(s: seq<T>, rank: T -> int)
    ensures Sorted(SortSeq(s, rank), rank)
    decreases |s|
  {
    if |s| > 0 {
      SortSeqSorted(s[..|s| - 1], rank);
      InsertBackSorted(SortSeq(s[..|s| - 1], rank), s[|s| - 1], rank);
    }
  }

  lemma {:induction false} WithKeyAppend<T>(s: seq<T>, t: seq<T>, rank: T -> int, k: int)
    ensures WithKey(s + t, rank, k) == WithKey(s, rank, k) + WithKey(t, rank, k)
    decreases |t|
  {
    if |t| > 0 {
      var t' := t[..|t| - 1];
      assert (s + t)[..|s + t| - 1] == s + t';
      assert (s + t)[|s + t| - 1] == t[|t| - 1];
      WithKeyAppend(s, t', rank, k);
    } else {
      assert s + t == s;
    }
  }

  /** Inserting x keeps the order of the elements of each key, x last among its own. */
  lemma {:induction false} InsertBackStable<T>(s: seq<T>, x: T, rank: T -> int, k: int)
    ensures WithKey(InsertBack(s, x, rank), rank, k) == WithKey(s, rank, k) + (if rank(x) == k then [x] else [])
    decreases |s|
  {
    if |s| > 0 && rank(x) < rank(s[|s| - 1]) {
      var init := s[..|s| - 1];
      var last := s[|s| - 1];
      InsertBackStable(init, x, rank, k);
      WithKeyAppend(InsertBack(init, x, rank), [last], rank, k);
      assert WithKey([last], rank, k) == (if rank(last) == k then [last] else []);
      assert s == init + [last];
      WithKeyAppend(init, [last], rank, k);
    } else if |s| > 0 {
      WithKeyAppend(s, [x], rank, k);
      assert WithKey([x], rank, k) == (if rank(x) == k then [x] else []);
    } else {
      assert WithKey([x], rank, k) == (if rank(x) == k then [x] else []);
    }
  }

  /** Stability: the elements of each key come out in their input order. */
  lemma {:induction false} SortSeqStable<T>(s: seq<T>, rank: T -> int, k: int)
    ensures WithKey(SortSeq(s, rank), rank, k) == WithKey(s, rank, k)
    decreases |s|
  {
    if |s| > 0 {
      SortSeqStable(s[..|s| - 1], rank, k);
      InsertBackStable(SortSeq(s[..|s| - 1], rank), s[|s| - 1], rank, k);
    }
  }

  /** One backward swap step of the inner loop, in terms of InsertBack. */
  lemma InsertBackStep<T>(s: seq<T>, j: int, x: T, rank: T -> int)
    requires 0 < j <= |s|
    requires rank(x) < rank(s[j - 1])
    ensures InsertBack(s[..j], x, rank) + s[j..] == InsertBack(s[..j - 1], x, rank) + s[j - 1..]
  {
    assert s[..j][..j - 1] == s[..j - 1];
    assert s[j - 1..] == [s[j - 1]] + s[j..];
  }

  /**
   * The inner loop of InsertionSort: the element at index i walks back
   * over the sorted prefix a[..i] while it is cmp-less than its
   * predecessor.
   */
  method InsertAt<T>(a: array<T>, i: int, rank: T -> int)
    requires 0 <= i < a.Length
    modifies a
    ensures a[..i + 1] == InsertBack(old(a[..i]), old(a[i]), rank)
    ensures a[i + 1..] == old(a[i + 1..])
  {
    ghost var S := a[..i];
    ghost var x := a[i];
    ghost var R := a[i + 1..];
    var j := i;
    while j > 0 && rank(a[j]) < rank(a[j - 1])
      invariant 0 <= j <= i
      invariant a[j] == x
      invariant a[..j] == S[..j]
      invariant a[j + 1..i + 1] == S[j..]
      invariant a[i + 1..] == R
      invariant InsertBack(S, x, rank) == InsertBack(S[..j], x, rank) + S[j..]
      decreases j
    {
      InsertBackStep(S, j, x, rank);
      a[j], a[j - 1] := a[j - 1], a[j];
      j := j - 1;
    }
    if j > 0 {
      assert S[..j][..j - 1] == S[..j - 1];
    }
    assert InsertBack(S[..j], x, rank) == S[..j] + [x];
    assert a[..i + 1] == a[..j] + [x] + a[j + 1..i + 1];
  }

  /**
   * InsertionSort(begin, end, cmp): for each element after the first, swap
   * it back while it is cmp-less than its predecessor.
   */
  method InsertionSort<T>(a: array<T>, rank: T -> int)
    modifies a
    ensures a[..] == SortSeq(old(a[..]), rank)
  {
    ghost var A := a[..];
    if a.Length == 0 {
      return;
    }
    assert SortSeq(A[..1], rank) == [A[0]] by {
      assert A[..1][..0] == [];
    }
    var i := 1;
    while i < a.Length
      invariant 1 <= i <= a.Length
      invariant a[..i] == SortSeq(A[..i], rank)
      invariant a[i..] == A[i..]
      decreases a.Length - i
    {
      InsertAt(a, i, rank);
      assert A[..i + 1][..i] == A[..i];
      i := i + 1;
    }
    assert a[..] == a[..a.Length];
    assert A == A[..a.Length];
  }
}
