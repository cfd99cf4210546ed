/**
  Small sequence vocabulary shared by every page of the storefront model:
  an Option for JavaScript's `undefined`, and the array methods the pages use
  (`filter`, `map`, `reduce` into a sum, `slice(0, n)`).
*/
module Util {

  /** `None` stands for a JavaScript value that is `undefined`. */
  datatype Option<T> = None | Some(value: T) {
    /** `x || d` for a value that is either present or undefined. */
    function GetOr(d: T): T {
      if Some? then value else d
    }
  }

  function Min(a: int, b: int): int {
    if a <= b then a else b
  }

  function Max(a: int, b: int): int {
    if a >= b then a else b
  }

  /** `s.filter(p)`: the elements of `s` that satisfy `p`, in their order. */
  function Filter<T>(s: seq<T>, p: T -> bool): (r: seq<T>)
    ensures |r| <= |s|
    ensures forall i :: 0 <= i < |r| ==> r[i] in s && p(r[i])
    ensures forall i :: 0 <= i < |s| && p(s[i]) ==> s[i] in r
    ensures multiset(r) <= multiset(s)
  {
    if |s| == 0 then []
    else
      var rest := Filter(s[..|s| - 1], p);
      assert s == s[..|s| - 1] + [s[|s| - 1]];
      if p(s[|s| - 1]) then rest + [s[|s| - 1]] else rest
  }

  lemma {:induction false} FilterConcat<T>(a: seq<T>, b: seq<T>, p: T -> bool)
    ensures Filter(a + b, p) == Filter(a, p) + Filter(b, p)
  {
    if |b| > 0 {
      var b' := b[..|b| - 1];
      assert (a + b)[..|a + b| - 1] == a + b';
      FilterConcat(a, b', p);
    } else {
      assert a + b == a;
    }
  }

  lemma FilterSingleton<T>(x: T, p: T -> bool)
    ensures Filter([x], p) == if p(x) then [x] else []
  {
    assert [x][..0] == [];
  }

  /** A filter whose predicate holds everywhere keeps the whole sequence. */
  lemma {:induction false} FilterAll<T>(s: seq<T>, p: T -> bool)
    requires forall i :: 0 <= i < |s| ==> p(s[i])
    ensures Filter(s, p) == s
  {
    if |s| > 0 {
      FilterAll(s[..|s| - 1], p);
      assert s == s[..|s| - 1] + [s[|s| - 1]];
    }
  }

  /** Filtering keeps a sequence free of repeats. */
  lemma {:induction false} FilterNoDup<T>(s: seq<T>, p: T -> bool)
    requires NoDup(s)
    ensures NoDup(Filter(s, p))
  {
    if |s| > 0 {
      var s' := s[..|s| - 1];
      FilterNoDup(s', p);
      var f := Filter(s', p);
      forall i | 0 <= i < |f| ensures f[i] != s[|s| - 1] {
        var j :| 0 <= j < |s'| && s'[j] == f[i];
      }
    }
  }

  /** Filtering keeps elements pairwise distinct under `key` when they were so before. */
  lemma {:induction false} FilterKeepsDistinct<T, K>(s: seq<T>, p: T -> bool, key: T -> K)
    requires forall i, j :: 0 <= i < j < |s| ==> key(s[i]) != key(s[j])
    ensures forall i, j :: 0 <= i < j < |Filter(s, p)| ==> key(Filter(s, p)[i]) != key(Filter(s, p)[j])
  {
    if |s| > 0 {
      var s' := s[..|s| - 1];
      FilterKeepsDistinct(s', p, key);
      var f := Filter(s', p);
      forall i | 0 <= i < |f| ensures key(f[i]) != key(s[|s| - 1]) {
        var j :| 0 <= j < |s'| && s'[j] == f[i];
      }
      FilterLast(s, p);
    }
  }

  /** A filter whose predicate holds nowhere keeps nothing. */
  lemma {:induction false} FilterNone<T>(s: seq<T>, p: T -> bool)
    requires forall i :: 0 <= i < |s| ==> !p(s[i])
    ensures Filter(s, p) == []
  {
    if |s| > 0 {
      FilterNone(s[..|s| - 1], p);
    }
  }

  /** Two tests that agree on every element of `s` keep the same elements. */
  lemma {:induction false} FilterSameTest<T>(s: seq<T>, p: T -> bool, q: T -> bool)
    requires forall i :: 0 <= i < |s| ==> p(s[i]) == q(s[i])
    ensures Filter(s, p) == Filter(s, q)
  {
    if |s| > 0 {
      FilterSameTest(s[..|s| - 1], p, q);
    }
  }

  /** Filtering a non-empty sequence filters its front and then looks at its last element. */
  lemma FilterLast<T>(s: seq<T>, p: T -> bool)
    requires |s| > 0
    ensures Filter(s, p) == Filter(s[..|s| - 1], p) + if p(s[|s| - 1]) then [s[|s| - 1]] else []
  {
  }

  /** Filtering by `p` and by its negation splits `s` into two parts that together are `s`. */
  lemma FilterSplit<T>(s: seq<T>, p: T -> bool, q: T -> bool)
    requires forall i :: 0 <= i < |s| ==> q(s[i]) == !p(s[i])
    ensures |Filter(s, p)| + |Filter(s, q)| == |s|
    ensures multiset(Filter(s, p)) + multiset(Filter(s, q)) == multiset(s)
  {
    FilterSplitMultiset(s, p, q);
    assert |multiset(Filter(s, p)) + multiset(Filter(s, q))| == |multiset(s)|;
  }

  lemma {:induction false} FilterSplitMultiset<T>(s: seq<T>, p: T -> bool, q: T -> bool)
    requires forall i :: 0 <= i < |s| ==> q(s[i]) == !p(s[i])
    ensures multiset(Filter(s, p)) + multiset(Filter(s, q)) == multiset(s)
  {
    if |s| > 0 {
      var s' := s[..|s| - 1];
      FilterSplitMultiset(s', p, q);
      FilterLast(s, p);
      FilterLast(s, q);
      if p(s[|s| - 1]) {
        GrowPart(Filter(s', p), Filter(s', q), s);
      } else {
        GrowPart(Filter(s', q), Filter(s', p), s);
      }
    }
  }

  /** Two parts of the front of `s`, one of them grown by its last element, are parts of `s`. */
  lemma GrowPart<T>(a: seq<T>, b: seq<T>, s: seq<T>)
    requires |s| > 0
    requires multiset(a) + multiset(b) == multiset(s[..|s| - 1])
    ensures multiset(a + [s[|s| - 1]]) + multiset(b) == multiset(s)
  {
    assert s == s[..|s| - 1] + [s[|s| - 1]];
  }

  /** `s.map(f)`. */
  function Map<T, U>(s: seq<T>, f: T -> U): (r: seq<U>)
    ensures |r| == |s|
    ensures forall i :: 0 <= i < |s| ==> r[i] == f(s[i])
  {
    seq(|s|, i requires 0 <= i < |s| => f(s[i]))
  }

  /**
    `s.find(x => key(x) === id)`: an element whose key is `id`, None
    (`undefined`) exactly when no element has it; `FindByFirst` shows it is
    the first such element.
  */
  function FindBy<T(==)>(s: seq<T>, key: T -> string, id: string): (r: Option<T>)
    ensures r.None? <==> forall i :: 0 <= i < |s| ==> key(s[i]) != id
    ensures r.Some? ==> r.value in s && key(r.value) == id
  {
    if |s| == 0 then None
    else if key(s[0]) == id then Some(s[0])
    else FindBy(s[1..], key, id)
  }

  /** The element `find` returns stands before every other element with that key. */
  lemma {:induction false} FindByFirst<T>(s: seq<T>, key: T -> string, id: string)
    requires FindBy(s, key, id).Some?
    ensures exists i :: 0 <= i < |s| && s[i] == FindBy(s, key, id).value && forall j :: 0 <= j < i ==> key(s[j]) != id
  {
    if key(s[0]) != id {
      FindByFirst(s[1..], key, id);
      var i :| 0 <= i < |s[1..]| && s[1..][i] == FindBy(s, key, id).value && forall j :: 0 <= j < i ==> key(s[1..][j]) != id;
      assert s[i + 1] == FindBy(s, key, id).value && forall j :: 0 <= j < i + 1 ==> key(s[j]) != id;
    } else {
      assert s[0] == FindBy(s, key, id).value;
    }
  }

  /** `s.reduce((sum, x) => sum + f(x), 0)`, folded from the left as `reduce` does. */
  function SumReal<T>(s: seq<T>, f: T -> real): real {
    if |s| == 0 then 0.0 else SumReal(s[..|s| - 1], f) + f(s[|s| - 1])
  }

  /** The same fold for integer-valued terms. */
  function SumInt<T>(s: seq<T>, f: T -> int): int {
    if |s| == 0 then 0 else SumInt(s[..|s| - 1], f) + f(s[|s| - 1])
  }

  lemma SumRealSingle<T>(x: T, f: T -> real)
    ensures SumReal([x], f) == f(x)
  {
    assert [x][..0] == [];
  }

  lemma {:induction false} SumRealConcat<T>(a: seq<T>, b: seq<T>, f: T -> real)
    ensures SumReal(a + b, f) == SumReal(a, f) + SumReal(b, f)
  {
    if |b| > 0 {
      assert (a + b)[..|a + b| - 1] == a + b[..|b| - 1];
      SumRealConcat(a, b[..|b| - 1], f);
    } else {
      assert a + b == a;
    }
  }

  lemma {:induction false} SumIntConcat<T>(a: seq<T>, b: seq<T>, f: T -> int)
    ensures SumInt(a + b, f) == SumInt(a, f) + SumInt(b, f)
  {
    if |b| > 0 {
      assert (a + b)[..|a + b| - 1] == a + b[..|b| - 1];
      SumIntConcat(a, b[..|b| - 1], f);
    } else {
      assert a + b == a;
    }
  }

  /** Replacing one element changes an integer sum by exactly the difference of the terms. */
  lemma {:induction false} SumIntUpdate<T>(s: seq<T>, k: nat, x: T, f: T -> int)
    requires k < |s|
    ensures SumInt(s[k := x], f) == SumInt(s, f) - f(s[k]) + f(x)
  {
    var s' := s[k := x];
    assert s == s[..k] + [s[k]] + s[k + 1..];
    assert s' == s[..k] + [x] + s[k + 1..];
    SumIntConcat(s[..k] + [s[k]], s[k + 1..], f);
    SumIntConcat(s[..k], [s[k]], f);
    SumIntConcat(s[..k] + [x], s[k + 1..], f);
    SumIntConcat(s[..k], [x], f);
    assert SumInt([s[k]], f) == f(s[k]) by { assert [s[k]][..0] == []; }
    assert SumInt([x], f) == f(x) by { assert [x][..0] == []; }
  }

  /** The same for a real-valued sum. */
  lemma {:induction false} SumRealUpdate<T>(s: seq<T>, k: nat, x: T, f: T -> real)
    requires k < |s|
    ensures SumReal(s[k := x], f) == SumReal(s, f) - f(s[k]) + f(x)
  {
    var s' := s[k := x];
    assert s == s[..k] + [s[k]] + s[k + 1..];
    assert s' == s[..k] + [x] + s[k + 1..];
    SumRealConcat(s[..k] + [s[k]], s[k + 1..], f);
    SumRealConcat(s[..k], [s[k]], f);
    SumRealConcat(s[..k] + [x], s[k + 1..], f);
    SumRealConcat(s[..k], [x], f);
    assert SumReal([s[k]], f) == f(s[k]) by { assert [s[k]][..0] == []; }
    assert SumReal([x], f) == f(x) by { assert [x][..0] == []; }
  }

  /** Taking out the element at `k` takes its term out of a real sum. */
  lemma SumRealRemove<T>(s: seq<T>, k: nat, f: T -> real)
    requires k < |s|
    ensures SumReal(s, f) == SumReal(s[..k] + s[k + 1..], f) + f(s[k])
  {
    var front := s[..k + 1];
    assert front[..k] == s[..k];
    assert s == front + s[k + 1..];
    SumRealConcat(front, s[k + 1..], f);
    SumRealConcat(s[..k], s[k + 1..], f);
  }

  /** ... and one copy of it out of the multiset. */
  lemma MultisetRemove<T>(s: seq<T>, k: nat)
    requires k < |s|
    ensures multiset(s) == multiset(s[..k] + s[k + 1..]) + multiset{s[k]}
  {
    var x, l, r := s[k], s[..k], s[k + 1..];
    assert s == l + [x] + r;
    calc {
      multiset(l + [x] + r);
      multiset(l + [x]) + multiset(r);
      multiset(l) + multiset{x} + multiset(r);
      multiset(l + r) + multiset{x};
    }
  }

  /** Replacing one element changes the size of a filter by whether the old and the new element pass. */
  lemma FilterCountUpdate<T>(s: seq<T>, k: nat, x: T, p: T -> bool)
    requires k < |s|
    ensures |Filter(s[k := x], p)| == |Filter(s, p)| - (if p(s[k]) then 1 else 0) + (if p(x) then 1 else 0)
  {
    assert s == s[..k] + [s[k]] + s[k + 1..];
    assert s[k := x] == s[..k] + [x] + s[k + 1..];
    FilterConcat(s[..k] + [s[k]], s[k + 1..], p);
    FilterConcat(s[..k], [s[k]], p);
    FilterConcat(s[..k] + [x], s[k + 1..], p);
    FilterConcat(s[..k], [x], p);
    FilterSingleton(s[k], p);
    FilterSingleton(x, p);
  }

  /** `s.slice(0, n)`. */
  function Take<T>(s: seq<T>, n: nat): (r: seq<T>)
    ensures |r| == Min(n, |s|)
    ensures r == s[..|r|]
  {
    if n <= |s| then s[..n] else s
  }

  /** No element occurs twice. */
  predicate NoDup<T(==)>(s: seq<T>) {
    forall i, j :: 0 <= i < j < |s| ==> s[i] != s[j]
  }
}
