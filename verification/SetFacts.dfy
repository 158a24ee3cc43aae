/** Cardinality facts about finite sets of indices. */
module SetFacts {
  function UpTo(n: nat): (s: set<nat>)
    ensures forall i: nat :: i in s <==> i < n
    ensures |s| == n
  {
    if n == 0 then {} else UpTo(n - 1) + {n - 1}
  }

  lemma SubsetSize<T>(a: set<T>, b: set<T>)
    requires a <= b
    ensures |a| <= |b|
    ensures |a| == |b| ==> a == b
  {
    assert b == a + (b - a);
    assert a !! (b - a);
  }

  lemma AddMember<T>(a: set<T>, i: T, b: set<T>)
    requires i !in a
    ensures |(a + {i}) * b| == |a * b| + (if i in b then 1 else 0)
    ensures |(a + {i}) - b| == |a - b| + (if i in b then 0 else 1)
  {
    if i in b {
      assert (a + {i}) * b == a * b + {i};
      assert (a + {i}) - b == a - b;
    } else {
      assert (a + {i}) * b == a * b;
      assert (a + {i}) - b == a - b + {i};
    }
  }

  lemma SplitSize<T>(a: set<T>, b: set<T>)
    requires b <= a
    ensures |a * b| == |b| && |a * b| + |a - b| == |a|
  {
    assert a * b == b;
    assert a == b + (a - b);
  }
}
