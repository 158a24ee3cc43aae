/**
 Witness assembly (internal/services/witness_gen.go): the order of covenant keys and the list of
 signature slots that matches it.
 */
module WitnessGen {
  import opened Bytes
  import opened Types
  import opened Wrappers
  import StableSort

  function XKey(key: PubKey): XOnly {
    key.x
  }

  /** `a` sorts before `b` in the witness: reverse lexicographic order of x-only keys. */
  predicate WitnessLess(a: XOnly, b: XOnly) {
    Compare(a, b) == 1
  }

  /** `a` sorts before `b` in the script: lexicographic order of x-only keys. */
  predicate ScriptLess(a: XOnly, b: XOnly) {
    Compare(b, a) == 1
  }

  function SortForWitness(keys: seq<PubKey>): seq<PubKey> {
    StableSort.SortBy(keys, XKey, WitnessLess)
  }

  function SortForScript(keys: seq<PubKey>): seq<PubKey> {
    StableSort.SortBy(keys, XKey, ScriptLess)
  }

  ghost predicate DistinctXOnly(keys: seq<PubKey>) {
    forall i, j :: 0 <= i < j < |keys| ==> keys[i].x != keys[j].x
  }

  /** Both orders on x-only keys are strict weak orders whose only ties are equal keys. */
  lemma OrdersAreTotal()
    ensures StableSort.WeakOrder(WitnessLess) && StableSort.WeakOrder(ScriptLess)
    ensures forall a: XOnly, b: XOnly :: a == b || WitnessLess(a, b) || ScriptLess(a, b)
    ensures forall a: XOnly, b: XOnly :: WitnessLess(a, b) ==> a != b && ScriptLess(b, a)
  {
    forall a: XOnly, b: XOnly
      ensures Compare(b, a) == -Compare(a, b) && (Compare(a, b) == 0 <==> a == b)
    {
      CompareFlip(a, b);
      CompareEqual(a, b);
    }
    forall a: XOnly, b: XOnly, c: XOnly
      ensures !WitnessLess(b, a) && !WitnessLess(c, b) ==> !WitnessLess(c, a)
      ensures !ScriptLess(b, a) && !ScriptLess(c, b) ==> !ScriptLess(c, a)
    {
      if !WitnessLess(b, a) && !WitnessLess(c, b) {
        CompareTransitive(a, b, c);
      }
      if !ScriptLess(b, a) && !ScriptLess(c, b) {
        CompareTransitive(c, b, a);
      }
    }
  }

  lemma MultiplicityOfRepeated<T>(t: seq<T>, i: nat, j: nat)
    requires i < j < |t| && t[i] == t[j]
    ensures multiset(t)[t[i]] >= 2
  {
    assert t == t[..j] + [t[j]] + t[j + 1..];
    assert t[i] in multiset(t[..j]) by { assert t[i] == t[..j][i]; }
  }

  lemma MultiplicityOfUnique<T>(s: seq<T>, i: nat)
    requires i < |s| && forall j :: 0 <= j < |s| && j != i ==> s[j] != s[i]
    ensures multiset(s)[s[i]] == 1
  {
    assert s == s[..i] + [s[i]] + s[i + 1..];
  }

  lemma SameMembers<T>(s: seq<T>, t: seq<T>)
    requires multiset(s) == multiset(t)
    ensures forall e :: e in s <==> e in t
    ensures |s| == |t|
  {
    assert forall e :: e in s <==> e in multiset(s);
    assert forall e :: e in t <==> e in multiset(t);
    assert |multiset(s)| == |s| && |multiset(t)| == |t|;
  }

  lemma DistinctSurvivesPermutation(s: seq<PubKey>, t: seq<PubKey>)
    requires DistinctXOnly(s) && multiset(s) == multiset(t)
    ensures DistinctXOnly(t)
  {
    SameMembers(s, t);
    forall i, j | 0 <= i < j < |t|
      ensures t[i].x != t[j].x
    {
      if t[i].x == t[j].x {
        assert t[i] in s && t[j] in s;
        var i' :| 0 <= i' < |s| && s[i'] == t[i];
        var j' :| 0 <= j' < |s| && s[j'] == t[j];
        assert i' == j';
        MultiplicityOfRepeated(t, i, j);
        MultiplicityOfUnique(s, i');
      }
    }
  }

  /**
   For keys with distinct x coordinates the sort is a strictly descending permutation of the input,
   and the only one.
   */
  lemma WitnessOrder(keys: seq<PubKey>, t: seq<PubKey>)
    requires DistinctXOnly(keys)
    ensures multiset(SortForWitness(keys)) == multiset(keys)
    ensures StableSort.StrictlySorted(SortForWitness(keys), XKey, WitnessLess)
    ensures multiset(t) == multiset(keys) && StableSort.StrictlySorted(t, XKey, WitnessLess)
            <==> t == SortForWitness(keys)
  {
    var s := SortForWitness(keys);
    OrdersAreTotal();
    StableSort.SortByCorrect(keys, XKey, WitnessLess);
    DistinctSurvivesPermutation(keys, s);
    forall i, j | 0 <= i < j < |s|
      ensures WitnessLess(XKey(s[i]), XKey(s[j]))
    {
      assert !WitnessLess(XKey(s[j]), XKey(s[i]));
    }
    if multiset(t) == multiset(keys) && StableSort.StrictlySorted(t, XKey, WitnessLess) {
      StableSort.StrictlySortedUnique(s, t, XKey, WitnessLess);
    }
  }

  function Reverse<T>(s: seq<T>): (r: seq<T>)
    ensures |r| == |s|
    ensures forall i :: 0 <= i < |s| ==> r[i] == s[|s| - 1 - i]
    ensures multiset(r) == multiset(s)
  {
    if s == [] then []
    else
      assert s == s[..|s| - 1] + [s[|s| - 1]];
      [s[|s| - 1]] + Reverse(s[..|s| - 1])
  }

  /** The witness order is the exact reverse of the script order. */
  lemma WitnessOrderReversesScriptOrder(keys: seq<PubKey>)
    requires DistinctXOnly(keys)
    ensures SortForScript(keys) == Reverse(SortForWitness(keys))
  {
    var s := SortForScript(keys);
    OrdersAreTotal();
    StableSort.SortByCorrect(keys, XKey, ScriptLess);
    DistinctSurvivesPermutation(keys, s);
    WitnessOrder(keys, []);
    var r := Reverse(SortForWitness(keys));
    forall i, j | 0 <= i < j < |s|
      ensures ScriptLess(XKey(s[i]), XKey(s[j]))
    {
      assert !ScriptLess(XKey(s[j]), XKey(s[i]));
    }
    forall i, j | 0 <= i < j < |r|
      ensures ScriptLess(XKey(r[i]), XKey(r[j]))
    {
      assert WitnessLess(XKey(SortForWitness(keys)[|r| - 1 - j]), XKey(SortForWitness(keys)[|r| - 1 - i]));
    }
    StableSort.StrictlySortedUnique(s, r, XKey, ScriptLess);
  }

  /** The signature of the last received pair for x-only key `x`. */
  function LastSignature(pairs: seq<Pair>, x: XOnly): Option<Signature> {
    if pairs == [] then None
    else if pairs[|pairs| - 1].key.x == x then Some(pairs[|pairs| - 1].sig)
    else LastSignature(pairs[..|pairs| - 1], x)
  }

  /** One slot per key, in the order given. */
  function Slots(keys: seq<PubKey>, pairs: seq<Pair>): (s: seq<Option<Signature>>)
    ensures |s| == |keys|
    ensures forall i :: 0 <= i < |keys| ==> s[i] == LastSignature(pairs, keys[i].x)
  {
    seq(|keys|, i requires 0 <= i < |keys| => LastSignature(pairs, keys[i].x))
  }

  function WitnessSlots(keys: seq<PubKey>, pairs: seq<Pair>): seq<Option<Signature>> {
    Slots(SortForWitness(keys), pairs)
  }

  method SortPubKeysForWitness(infos: array<PubKey>) returns (sortedInfos: array<PubKey>)
    ensures fresh(sortedInfos)
    ensures sortedInfos[..] == SortForWitness(infos[..])
    ensures infos[..] == old(infos[..])
  {
    sortedInfos := new PubKey[infos.Length](i requires 0 <= i < infos.Length reads infos => infos[i]);
    assert sortedInfos[..] == infos[..];
    StableSort.Sort(sortedInfos, XKey, WitnessLess);
  }

  /** The string-keyed table of received signatures agrees with `LastSignature`. */
  ghost predicate TableOf(table: map<string, Signature>, pairs: seq<Pair>) {
    forall key: PubKey {:trigger SchnorrHex(key)} ::
      LastSignature(pairs, key.x)
      == if SchnorrHex(key) in table then Some(table[SchnorrHex(key)]) else None
  }

  lemma TableExtends(table: map<string, Signature>, pairs: seq<Pair>, pair: Pair)
    requires TableOf(table, pairs)
    ensures TableOf(table[SchnorrHex(pair.key) := pair.sig], pairs + [pair])
  {
    var table' := table[SchnorrHex(pair.key) := pair.sig];
    forall key: PubKey
      ensures LastSignature(pairs + [pair], key.x)
              == if SchnorrHex(key) in table' then Some(table'[SchnorrHex(key)]) else None
    {
      SchnorrHexInjective(key, pair.key);
      assert (pairs + [pair])[..|pairs|] == pairs;
    }
  }

  method CreateWitnessSignaturesForPubKeys(covenantPubKeys: array<PubKey>, receivedPairs: seq<Pair>)
      returns (signatures: array<Option<Signature>>)
    ensures fresh(signatures)
    ensures signatures[..] == WitnessSlots(covenantPubKeys[..], receivedPairs)
    ensures covenantPubKeys[..] == old(covenantPubKeys[..])
  {
    var receivedSignatures: map<string, Signature> := map[];
    for i := 0 to |receivedPairs|
      invariant TableOf(receivedSignatures, receivedPairs[..i])
    {
      var pair := receivedPairs[i];
      TableExtends(receivedSignatures, receivedPairs[..i], pair);
      assert receivedPairs[..i + 1] == receivedPairs[..i] + [pair];
      receivedSignatures := receivedSignatures[SchnorrHex(pair.key) := pair.sig];
    }
    assert receivedPairs[..|receivedPairs|] == receivedPairs;

    var sortedPubKeys := SortPubKeysForWitness(covenantPubKeys);
    signatures := new Option<Signature>[sortedPubKeys.Length](_ => None);
    ghost var slots := Slots(sortedPubKeys[..], receivedPairs);
    for i := 0 to sortedPubKeys.Length
      invariant forall k :: 0 <= k < i ==> signatures[k] == slots[k]
      invariant forall k :: i <= k < signatures.Length ==> signatures[k] == None
      invariant sortedPubKeys[..] == SortForWitness(covenantPubKeys[..])
      invariant slots == Slots(sortedPubKeys[..], receivedPairs)
    {
      var k := SchnorrHex(sortedPubKeys[i]);
      if k in receivedSignatures {
        signatures[i] := Some(receivedSignatures[k]);
      }
    }
    assert signatures[..] == slots;
  }

  /** Each x-only key occurs in at most one received pair. */
  ghost predicate DistinctPairs(pairs: seq<Pair>) {
    forall i, j :: 0 <= i < j < |pairs| ==> pairs[i].key.x != pairs[j].key.x
  }

  lemma {:induction false} LastSignatureIsMember(pairs: seq<Pair>, x: XOnly)
    ensures LastSignature(pairs, x).Some? <==> exists p :: p in pairs && p.key.x == x
    ensures LastSignature(pairs, x).Some? ==> exists p :: p in pairs && p.key.x == x && p.sig == LastSignature(pairs, x).value
  {
    if pairs != [] {
      var init, last := pairs[..|pairs| - 1], pairs[|pairs| - 1];
      assert forall p :: p in pairs <==> p in init || p == last;
      LastSignatureIsMember(init, x);
    }
  }

  /** The last of the pairs that names this x coordinate. */
  ghost predicate LastNamed(pairs: seq<Pair>, x: XOnly, k: nat) {
    k < |pairs| && pairs[k].key.x == x && forall j :: k < j < |pairs| ==> pairs[j].key.x != x
  }

  /** A slot holds the signature of the last pair received for its key, and is empty if there is none. */
  lemma {:induction false} LastSignatureIsLast(pairs: seq<Pair>, x: XOnly)
    ensures forall k: nat :: LastNamed(pairs, x, k) ==> LastSignature(pairs, x) == Some(pairs[k].sig)
    ensures LastSignature(pairs, x).Some? <==> exists k: nat :: LastNamed(pairs, x, k)
    ensures LastSignature(pairs, x) == None <==> forall k :: 0 <= k < |pairs| ==> pairs[k].key.x != x
  {
    if pairs != [] {
      var n := |pairs| - 1;
      LastSignatureIsLast(pairs[..n], x);
      if pairs[n].key.x == x {
        assert LastNamed(pairs, x, n);
      } else {
        assert forall k: nat :: LastNamed(pairs, x, k) ==> LastNamed(pairs[..n], x, k);
        assert forall k: nat :: LastNamed(pairs[..n], x, k) ==> LastNamed(pairs, x, k);
      }
    }
  }

  lemma SignatureOfPair(pairs: seq<Pair>, p: Pair)
    requires DistinctPairs(pairs) && p in pairs
    ensures LastSignature(pairs, p.key.x) == Some(p.sig)
  {
    LastSignatureIsMember(pairs, p.key.x);
  }

  lemma LastSignatureIgnoresOrder(pairs: seq<Pair>, pairs': seq<Pair>, x: XOnly)
    requires DistinctPairs(pairs) && multiset(pairs') == multiset(pairs)
    ensures LastSignature(pairs', x) == LastSignature(pairs, x)
  {
    LastSignatureIsMember(pairs, x);
    LastSignatureIsMember(pairs', x);
    SameMembers(pairs, pairs');
    if LastSignature(pairs', x).Some? {
      var p :| p in pairs' && p.key.x == x && p.sig == LastSignature(pairs', x).value;
      SignatureOfPair(pairs, p);
    }
  }

  lemma SortIgnoresOrder(keys: seq<PubKey>, keys': seq<PubKey>)
    requires DistinctXOnly(keys) && multiset(keys') == multiset(keys)
    ensures SortForWitness(keys') == SortForWitness(keys)
  {
    DistinctSurvivesPermutation(keys, keys');
    WitnessOrder(keys', []);
    WitnessOrder(keys, SortForWitness(keys'));
  }

  /**
   The witness slots depend only on which key signed what: neither the arrival order of the pairs
   nor the order in which the committee is listed matters.
   */
  lemma WitnessIgnoresOrder(keys: seq<PubKey>, keys': seq<PubKey>, pairs: seq<Pair>, pairs': seq<Pair>)
    requires DistinctXOnly(keys) && multiset(keys') == multiset(keys)
    requires DistinctPairs(pairs) && multiset(pairs') == multiset(pairs)
    ensures WitnessSlots(keys', pairs') == WitnessSlots(keys, pairs)
  {
    SortIgnoresOrder(keys, keys');
    var sorted := SortForWitness(keys);
    forall i | 0 <= i < |sorted|
      ensures LastSignature(pairs', sorted[i].x) == LastSignature(pairs, sorted[i].x)
    {
      LastSignatureIgnoresOrder(pairs, pairs', sorted[i].x);
    }
  }
}
