/**
 The stable in-place sort behind Go's `sort.SliceStable`, specified by stable insertion.
 `less` compares the sort keys of two elements.
 */
module StableSort {
  ghost predicate WeakOrder<K(!new)>(less: (K, K) -> bool) {
    && (forall a, b :: less(a, b) ==> !less(b, a))
    && (forall a, b, c :: !less(b, a) && !less(c, b) ==> !less(c, a))
  }

  ghost predicate Sorted<T, K>(s: seq<T>, key: T -> K, less: (K, K) -> bool) {
    forall i, j :: 0 <= i < j < |s| ==> !less(key(s[j]), key(s[i]))
  }

  ghost predicate StrictlySorted<T, K>(s: seq<T>, key: T -> K, less: (K, K) -> bool) {
    forall i, j :: 0 <= i < j < |s| ==> less(key(s[i]), key(s[j]))
  }

  /** Insert `x` to the right of every element it is not less than. */
  function InsertBy<T, K>(s: seq<T>, x: T, key: T -> K, less: (K, K) -> bool): seq<T> {
    if s == [] || !less(key(x), key(s[|s| - 1])) then s + [x]
    else InsertBy(s[..|s| - 1], x, key, less) + [s[|s| - 1]]
  }

  function SortBy<T, K>(s: seq<T>, key: T -> K, less: (K, K) -> bool): seq<T> {
    if s == [] then [] else InsertBy(SortBy(s[..|s| - 1], key, less), s[|s| - 1], key, less)
  }

  lemma {:induction false} InsertByPermutes<T, K>(s: seq<T>, x: T, key: T -> K, less: (K, K) -> bool)
    ensures multiset(InsertBy(s, x, key, less)) == multiset(s) + multiset{x}
    ensures |InsertBy(s, x, key, less)| == |s| + 1
  {
    if s != [] && less(key(x), key(s[|s| - 1])) {
      InsertByPermutes(s[..|s| - 1], x, key, less);
      assert s == s[..|s| - 1] + [s[|s| - 1]];
    }
  }

  lemma {:induction false} InsertBySorted<T, K(!new)>(s: seq<T>, x: T, key: T -> K, less: (K, K) -> bool)
    requires WeakOrder(less) && Sorted(s, key, less)
    ensures Sorted(InsertBy(s, x, key, less), key, less)
  {
    if s == [] {
    } else if !less(key(x), key(s[|s| - 1])) {
      forall i | 0 <= i < |s|
        ensures !less(key(x), key(s[i]))
      {
        assert !less(key(s[|s| - 1]), key(s[i]));
      }
    } else {
      var init, last := s[..|s| - 1], s[|s| - 1];
      InsertBySorted(init, x, key, less);
      InsertByPermutes(init, x, key, less);
      var r := InsertBy(init, x, key, less);
      forall i | 0 <= i < |r|
        ensures !less(key(last), key(r[i]))
      {
        assert r[i] in multiset(r);
        assert r[i] == x || r[i] in init;
      }
    }
  }

  /** The sort is a permutation of its input and puts it in order. */
  lemma {:induction false} SortByCorrect<T, K(!new)>(s: seq<T>, key: T -> K, less: (K, K) -> bool)
    requires WeakOrder(less)
    ensures multiset(SortBy(s, key, less)) == multiset(s)
    ensures |SortBy(s, key, less)| == |s|
    ensures Sorted(SortBy(s, key, less), key, less)
  {
    if s != [] {
      var init, last := s[..|s| - 1], s[|s| - 1];
      assert s == init + [last];
      SortByCorrect(init, key, less);
      InsertByPermutes(SortBy(init, key, less), last, key, less);
      InsertBySorted(SortBy(init, key, less), last, key, less);
    }
  }

  /** The elements of `s` whose sort key is `k`, in their order. */
  function WithKey<T, K(==)>(s: seq<T>, key: T -> K, k: K): seq<T> {
    if s == [] then []
    else WithKey(s[..|s| - 1], key, k) + (if key(s[|s| - 1]) == k then [s[|s| - 1]] else [])
  }

  lemma {:induction false} InsertByStable<T, K(!new)>(s: seq<T>, x: T, key: T -> K, less: (K, K) -> bool, k: K)
    requires WeakOrder(less)
    ensures WithKey(InsertBy(s, x, key, less), key, k) == WithKey(s, key, k) + (if key(x) == k then [x] else [])
  {
    var r := InsertBy(s, x, key, less);
    if s == [] || !less(key(x), key(s[|s| - 1])) {
      assert r[..|r| - 1] == s;
    } else {
      InsertByStable(s[..|s| - 1], x, key, less, k);
      assert r[..|r| - 1] == InsertBy(s[..|s| - 1], x, key, less);
      assert !(key(x) == k && key(s[|s| - 1]) == k);
    }
  }

  /** Elements with equal keys keep their original order. */
  lemma {:induction false} SortByStable<T, K(!new)>(s: seq<T>, key: T -> K, less: (K, K) -> bool, k: K)
    requires WeakOrder(less)
    ensures WithKey(SortBy(s, key, less), key, k) == WithKey(s, key, k)
  {
    if s != [] {
      var init, last := s[..|s| - 1], s[|s| - 1];
      SortByStable(init, key, less, k);
      InsertByStable(SortBy(init, key, less), last, key, less, k);
    }
  }

  lemma MultisetTail<T>(s: seq<T>)
    requires s != []
    ensures multiset(s[1..]) == multiset(s) - multiset{s[0]}
  {
    assert s == [s[0]] + s[1..];
  }

  lemma LeastIsHead<T, K(!new)>(s: seq<T>, t: seq<T>, key: T -> K, less: (K, K) -> bool)
    requires WeakOrder(less)
    requires StrictlySorted(s, key, less) && StrictlySorted(t, key, less)
    requires s != [] && multiset(s) == multiset(t)
    ensures t != [] && s[0] == t[0]
  {
    assert s[0] in multiset(t);
    var i :| 0 <= i < |t| && t[i] == s[0];
    assert t[0] in multiset(s);
    var j :| 0 <= j < |s| && s[j] == t[0];
    if i > 0 && j > 0 {
      assert false;
    }
  }

  lemma TailsAgree<T, K(!new)>(s: seq<T>, t: seq<T>, key: T -> K, less: (K, K) -> bool)
    requires WeakOrder(less)
    requires StrictlySorted(s, key, less) && StrictlySorted(t, key, less)
    requires s != [] && multiset(s) == multiset(t)
    ensures t != [] && s[0] == t[0] && multiset(s[1..]) == multiset(t[1..])
    ensures StrictlySorted(s[1..], key, less) && StrictlySorted(t[1..], key, less)
  {
    LeastIsHead(s, t, key, less);
    MultisetTail(s);
    MultisetTail(t);
  }

  lemma SameHeadAndTail<T>(s: seq<T>, t: seq<T>)
    requires s != [] && t != [] && s[0] == t[0] && s[1..] == t[1..]
    ensures s == t
  {
    assert s == [s[0]] + s[1..] && t == [t[0]] + t[1..];
  }

  /** Two strictly ordered lists with the same elements are the same list. */
  lemma {:induction false} StrictlySortedUnique<T, K(!new)>(s: seq<T>, t: seq<T>, key: T -> K, less: (K, K) -> bool)
    requires WeakOrder(less)
    requires StrictlySorted(s, key, less) && StrictlySorted(t, key, less)
    requires multiset(s) == multiset(t)
    ensures s == t
  {
    if s == [] {
      assert |multiset(t)| == 0;
    } else {
      TailsAgree(s, t, key, less);
      StrictlySortedUnique(s[1..], t[1..], key, less);
      SameHeadAndTail(s, t);
    }
  }

  /** The inserted element passes the one before it. */
  lemma InsertPasses<T, K>(was: seq<T>, i: nat, j: nat, x: T, key: T -> K, less: (K, K) -> bool)
    requires 0 < j <= i <= |was| && less(key(x), key(was[j - 1]))
    requires InsertBy(was[..i], x, key, less) == InsertBy(was[..j], x, key, less) + was[j..i]
    ensures InsertBy(was[..i], x, key, less) == InsertBy(was[..j - 1], x, key, less) + was[j - 1..i]
  {
    assert was[..j][..j - 1] == was[..j - 1];
    assert was[j - 1..i] == [was[j - 1]] + was[j..i];
  }

  /** The inserted element has found its place. */
  lemma InsertStops<T, K>(was: seq<T>, i: nat, j: nat, x: T, key: T -> K, less: (K, K) -> bool)
    requires j <= i <= |was| && (j == 0 || !less(key(x), key(was[j - 1])))
    requires InsertBy(was[..i], x, key, less) == InsertBy(was[..j], x, key, less) + was[j..i]
    ensures InsertBy(was[..i], x, key, less) == was[..j] + [x] + was[j..i]
  {
  }

  /** Sink the element at `i` into the ordered prefix before it, by adjacent swaps. */
  method Sink<T, K>(a: array<T>, i: nat, key: T -> K, less: (K, K) -> bool)
    requires i < a.Length
    modifies a
    ensures a[..i + 1] == InsertBy(old(a[..i]), old(a[i]), key, less)
    ensures a[i + 1..] == old(a[i + 1..])
  {
    ghost var was := a[..];
    ghost var x := a[i];
    assert was[i..i] == [];
    var j := i;
    while 0 < j && less(key(a[j]), key(a[j - 1]))
      invariant 0 <= j <= i && a[j] == x
      invariant forall k :: 0 <= k < j ==> a[k] == was[k]
      invariant forall k :: j < k <= i ==> a[k] == was[k - 1]
      invariant forall k :: i < k < a.Length ==> a[k] == was[k]
      invariant InsertBy(was[..i], x, key, less) == InsertBy(was[..j], x, key, less) + was[j..i]
    {
      InsertPasses(was, i, j, x, key, less);
      a[j], a[j - 1] := a[j - 1], a[j];
      j := j - 1;
    }
    InsertStops(was, i, j, x, key, less);
    assert a[..i + 1] == was[..j] + [x] + was[j..i];
  }

  /** Insertion sort, in place. */
  method Sort<T, K>(a: array<T>, key: T -> K, less: (K, K) -> bool)
    modifies a
    ensures a[..] == SortBy(old(a[..]), key, less)
  {
    ghost var was := a[..];
    for i := 0 to a.Length
      invariant |was| == a.Length
      invariant a[..i] == SortBy(was[..i], key, less)
      invariant a[i..] == was[i..]
    {
      assert a[i] == a[i..][0] == was[i];
      assert a[i + 1..] == a[i..][1..];
      assert was[..i + 1][..i] == was[..i];
      Sink(a, i, key, less);
    }
    assert a[..] == a[..a.Length] && was[..a.Length] == was;
  }
}
