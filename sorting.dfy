/**
  `Array.prototype.sort` with a comparator `(a, b) => key(b) - key(a)`: the
  array is reordered in place by decreasing key, and elements with equal keys
  keep their relative order (the sort is stable). The statistics route sorts
  orders by creation time and pizza tallies by count this way.

  `SortDesc` is the specification: stable insertion of each element after
  every earlier element whose key is at least its own. `SortInPlace` is an
  in-place insertion sort proved to produce exactly that sequence.
*/
module Sorting {
  import opened Util

  ghost predicate SortedDesc<T>(s: seq<T>, key: T -> int) {
    forall i, j :: 0 <= i < j < |s| ==> key(s[i]) >= key(s[j])
  }

  /** Inserts `x` into `s` just after the last element whose key is at least `key(x)`. */
  function Insert<T>(s: seq<T>, x: T, key: T -> int): seq<T>
    decreases |s|
  {
    if |s| == 0 then [x]
    else if key(s[|s| - 1]) >= key(x) then s + [x]
    else Insert(s[..|s| - 1], x, key) + [s[|s| - 1]]
  }

  /** The stable descending sort of `s` by `key`. */
  function SortDesc<T>(s: seq<T>, key: T -> int): seq<T>
    decreases |s|
  {
    if |s| == 0 then []
    else Insert(SortDesc(s[..|s| - 1], key), s[|s| - 1], key)
  }

  /** The elements of `s` whose key is `k`, in their order in `s`. */
  function KeyRun<T>(s: seq<T>, key: T -> int, k: int): seq<T>
    decreases |s|
  {
    if |s| == 0 then []
    else KeyRun(s[..|s| - 1], key, k) + (if key(s[|s| - 1]) == k then [s[|s| - 1]] else [])
  }

  lemma {:induction false} KeyRunConcat<T>(a: seq<T>, b: seq<T>, key: T -> int, k: int)
    ensures KeyRun(a + b, key, k) == KeyRun(a, key, k) + KeyRun(b, key, k)
  {
    if |b| > 0 {
      assert (a + b)[..|a + b| - 1] == a + b[..|b| - 1];
      KeyRunConcat(a, b[..|b| - 1], key, k);
    } else {
      assert a + b == a;
    }
  }

  lemma {:induction false} InsertLength<T>(s: seq<T>, x: T, key: T -> int)
    ensures |Insert(s, x, key)| == |s| + 1
  {
    if |s| > 0 && key(s[|s| - 1]) < key(x) {
      InsertLength(s[..|s| - 1], x, key);
    }
  }

  lemma {:induction false} InsertPermutation<T>(s: seq<T>, x: T, key: T -> int)
    ensures multiset(Insert(s, x, key)) == multiset(s) + multiset{x}
  {
    if |s| > 0 && key(s[|s| - 1]) < key(x) {
      InsertPermutation(s[..|s| - 1], x, key);
      assert s == s[..|s| - 1] + [s[|s| - 1]];
    }
  }

  /** The first element of a non-empty insertion result is `x` or the first element of `s`. */
  lemma {:induction false} InsertHead<T>(s: seq<T>, x: T, key: T -> int)
    ensures |Insert(s, x, key)| > 0
    ensures Insert(s, x, key)[0] == x || (|s| > 0 && Insert(s, x, key)[0] == s[0])
  {
    if |s| > 0 && key(s[|s| - 1]) < key(x) {
      InsertHead(s[..|s| - 1], x, key);
    }
  }

  lemma {:induction false} InsertSorted<T>(s: seq<T>, x: T, key: T -> int)
    requires SortedDesc(s, key)
    ensures SortedDesc(Insert(s, x, key), key)
  {
    if |s| > 0 && key(s[|s| - 1]) < key(x) {
      var s' := s[..|s| - 1];
      var last := s[|s| - 1];
      InsertSorted(s', x, key);
      InsertPermutation(s', x, key);
      var r' := Insert(s', x, key);
      forall i | 0 <= i < |r'| ensures key(r'[i]) >= key(last) {
        assert r'[i] in multiset(s') + multiset{x};
        if r'[i] != x {
          assert r'[i] in multiset(s');
          var j :| 0 <= j < |s'| && s'[j] == r'[i];
        }
      }
    }
  }

  /**
    Inserting `x` adds it to the run of elements with its key, after them, and
    leaves every other run as it was.
  */
  lemma {:induction false} InsertKeyRun<T>(s: seq<T>, x: T, key: T -> int, k: int)
    ensures KeyRun(Insert(s, x, key), key, k) == KeyRun(s, key, k) + KeyRun([x], key, k)
  {
    assert [x][..0] == [];
    if |s| == 0 {
    } else if key(s[|s| - 1]) >= key(x) {
      KeyRunConcat(s, [x], key, k);
    } else {
      var s' := s[..|s| - 1];
      var last := s[|s| - 1];
      assert [last][..0] == [];
      InsertKeyRun(s', x, key, k);
      KeyRunConcat(Insert(s', x, key), [last], key, k);
    }
  }

  lemma {:induction false} SortDescPermutation<T>(s: seq<T>, key: T -> int)
    ensures |SortDesc(s, key)| == |s|
    ensures multiset(SortDesc(s, key)) == multiset(s)
  {
    if |s| > 0 {
      var s' := s[..|s| - 1];
      SortDescPermutation(s', key);
      InsertLength(SortDesc(s', key), s[|s| - 1], key);
      InsertPermutation(SortDesc(s', key), s[|s| - 1], key);
      assert s == s' + [s[|s| - 1]];
    }
  }

  lemma {:induction false} SortDescSorted<T>(s: seq<T>, key: T -> int)
    ensures SortedDesc(SortDesc(s, key), key)
  {
    if |s| > 0 {
      SortDescSorted(s[..|s| - 1], key);
      InsertSorted(SortDesc(s[..|s| - 1], key), s[|s| - 1], key);
    }
  }

  /** Stability: for every key, the elements carrying it appear in the same order before and after. */
  lemma {:induction false} SortDescStable<T>(s: seq<T>, key: T -> int, k: int)
    ensures KeyRun(SortDesc(s, key), key, k) == KeyRun(s, key, k)
  {
    if |s| > 0 {
      var s' := s[..|s| - 1];
      var x := s[|s| - 1];
      SortDescStable(s', key, k);
      InsertKeyRun(SortDesc(s', key), x, key, k);
      assert [x][..0] == [];
    }
  }

  /** Where an element of `s` ends up in the sorted sequence. */
  lemma SortedPosition<T>(s: seq<T>, key: T -> int, j: nat) returns (m: nat)
    requires j < |s|
    ensures |SortDesc(s, key)| == |s|
    ensures m < |s| && SortDesc(s, key)[m] == s[j]
  {
    SortDescPermutation(s, key);
    assert s[j] in multiset(SortDesc(s, key));
    m :| 0 <= m < |s| && SortDesc(s, key)[m] == s[j];
  }

  /** Where an element of the sorted sequence came from in `s`. */
  lemma OriginalPosition<T>(s: seq<T>, key: T -> int, m: nat) returns (j: nat)
    requires m < |s|
    ensures |SortDesc(s, key)| == |s|
    ensures j < |s| && s[j] == SortDesc(s, key)[m]
  {
    SortDescPermutation(s, key);
    assert SortDesc(s, key)[m] in multiset(s);
    j :| 0 <= j < |s| && s[j] == SortDesc(s, key)[m];
  }

  /** Taking the first `n` of the sorted sequence keeps only the largest keys: none left behind is larger. */
  lemma TopKeys<T>(s: seq<T>, key: T -> int, n: nat)
    ensures |SortDesc(s, key)| == |s|
    ensures forall i, j :: 0 <= i < |Take(SortDesc(s, key), n)| <= j < |s| ==>
      key(SortDesc(s, key)[i]) >= key(SortDesc(s, key)[j])
  {
    SortDescSorted(s, key);
    SortDescPermutation(s, key);
  }

  /**
    `Insert` puts `x` at position `j` when the element before `j` has a key
    at least `key(x)` and every element from `j` on has a smaller key.
  */
  lemma {:induction false} InsertAt<T>(s: seq<T>, j: nat, x: T, key: T -> int)
    requires j <= |s| && (j == 0 || key(s[j - 1]) >= key(x))
    requires forall m :: j <= m < |s| ==> key(s[m]) < key(x)
    ensures Insert(s, x, key) == s[..j] + [x] + s[j..]
    decreases |s|
  {
    if j < |s| {
      var s' := s[..|s| - 1];
      InsertAt(s', j, x, key);
      assert s'[..j] == s[..j];
      assert s[j..] == s'[j..] + [s[|s| - 1]];
    }
  }

  /**
    One step of insertion sort: with `a[..i]` sorted, moves `a[i]` left past
    every element with a smaller key.
  */
  method InsertInPlace<T>(a: array<T>, i: nat, key: T -> int)
    requires i < a.Length
    modifies a
    ensures a[..i + 1] == Insert(old(a[..i]), old(a[i]), key)
    ensures a[i + 1..] == old(a[i + 1..])
  {
    ghost var S := a[..i];
    var x := a[i];
    var j := i;
    while j > 0 && key(a[j - 1]) < key(x)
      invariant 0 <= j <= i
      invariant forall m :: 0 <= m < j ==> a[m] == S[m]
      invariant forall m :: j < m <= i ==> a[m] == S[m - 1]
      invariant forall m :: i < m < a.Length ==> a[m] == old(a[m])
      invariant forall m :: j <= m < i ==> key(S[m]) < key(x)
    {
      a[j] := a[j - 1];
      j := j - 1;
    }
    a[j] := x;
    InsertAt(S, j, x, key);
    ghost var r := S[..j] + [x] + S[j..];
    assert forall m :: 0 <= m <= i ==> a[m] == r[m];
    assert a[..i + 1] == r;
  }

  /** Sorts `a` in place, by decreasing key, stably. */
  method SortInPlace<T>(a: array<T>, key: T -> int)
    modifies a
    ensures a[..] == SortDesc(old(a[..]), key)
    ensures multiset(a[..]) == multiset(old(a[..]))
    ensures SortedDesc(a[..], key)
  {
    ghost var A := a[..];
    var i := 0;
    while i < a.Length
      invariant 0 <= i <= a.Length
      invariant a[..i] == SortDesc(A[..i], key)
      invariant a[i..] == A[i..]
    {
      assert A[..i + 1][..i] == A[..i];
      assert a[i] == A[i];
      InsertInPlace(a, i, key);
      i := i + 1;
    }
    assert a[..] == a[..a.Length];
    assert A == A[..a.Length];
    SortDescPermutation(A, key);
    SortDescSorted(A, key);
  }
}
