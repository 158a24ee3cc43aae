/**
 Byte strings and the byte-wise lexicographic comparison that orders covenant keys.
 */
module Bytes {
  type byte = b: int | 0 <= b < 256

  type bytes = seq<byte>

  type XOnly = s: bytes | |s| == 32 witness seq(32, _ => 0)

  /** Three-way lexicographic comparison; a proper prefix is smaller. */
  function Compare(a: bytes, b: bytes): (c: int)
    ensures -1 <= c <= 1
  {
    if a == [] then
      if b == [] then 0 else -1
    else if b == [] then 1
    else if a[0] < b[0] then -1
    else if b[0] < a[0] then 1
    else Compare(a[1..], b[1..])
  }

  lemma {:induction false} CompareEqual(a: bytes, b: bytes)
    ensures Compare(a, b) == 0 <==> a == b
  {
    if a != [] && b != [] && a[0] == b[0] {
      CompareEqual(a[1..], b[1..]);
      assert a == [a[0]] + a[1..] && b == [b[0]] + b[1..];
    }
  }

  lemma {:induction false} CompareFlip(a: bytes, b: bytes)
    ensures Compare(b, a) == -Compare(a, b)
  {
    if a != [] && b != [] && a[0] == b[0] {
      CompareFlip(a[1..], b[1..]);
    }
  }

  lemma {:induction false} CompareTransitive(a: bytes, b: bytes, c: bytes)
    requires Compare(a, b) >= 0 && Compare(b, c) >= 0
    ensures Compare(a, c) >= 0
    ensures Compare(a, c) == 0 ==> Compare(a, b) == 0 && Compare(b, c) == 0
  {
    if a != [] && b != [] && c != [] && a[0] == b[0] == c[0] {
      CompareTransitive(a[1..], b[1..], c[1..]);
    }
  }

  /** `b` is below `a` because of a first position where they differ, or because it is a proper prefix. */
  ghost predicate FirstDifference(a: bytes, b: bytes, k: nat) {
    && k <= |a| && k <= |b|
    && a[..k] == b[..k]
    && k < |a|
    && (k == |b| || b[k] < a[k])
  }

  lemma {:induction false} CompareMeaning(a: bytes, b: bytes)
    ensures Compare(a, b) == 1 <==> exists k: nat :: FirstDifference(a, b, k)
  {
    if a == [] || b == [] || a[0] != b[0] {
      if a != [] && (b == [] || b[0] < a[0]) {
        assert FirstDifference(a, b, 0);
      }
      if exists k: nat :: FirstDifference(a, b, k) {
        var k: nat :| FirstDifference(a, b, k);
        assert k > 0 ==> a[..k][0] == b[..k][0];
      }
    } else {
      CompareMeaning(a[1..], b[1..]);
      if exists k: nat :: FirstDifference(a[1..], b[1..], k) {
        var k: nat :| FirstDifference(a[1..], b[1..], k);
        assert a[..k + 1] == [a[0]] + a[1..][..k] && b[..k + 1] == [b[0]] + b[1..][..k];
        assert FirstDifference(a, b, k + 1);
      }
      if exists k: nat :: FirstDifference(a, b, k) {
        var k: nat :| FirstDifference(a, b, k);
        assert a[1..][..k - 1] == a[..k][1..] && b[1..][..k - 1] == b[..k][1..];
        assert FirstDifference(a[1..], b[1..], k - 1);
      }
    }
  }
}
