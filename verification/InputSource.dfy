/**
 The input source for funding transactions (`makeInputSource` in internal/btcclient/client.go): a
 closure that takes unspent outputs from the front of a list until its target is met, over a list
 sorted from the largest amount to the smallest.
 */
module InputSource {
  import opened Bytes
  import opened Integers
  import opened Types
  import SetFacts
  import StableSort

  /** The value a 64-bit signed addition leaves. */
  function Wrap64(x: int): int64 {
    (x + TWO_TO_63) % TWO_TO_64 - TWO_TO_63
  }

  datatype Utxo = Utxo(amount: int64, outPoint: OutPoint, script: bytes)

  function Sum(us: seq<Utxo>): int {
    if us == [] then 0 else Sum(us[..|us| - 1]) + us[|us| - 1].amount
  }

  /** The running total of the closure, in 64-bit arithmetic. */
  function Total(us: seq<Utxo>): int64 {
    if us == [] then 0 else Wrap64(Total(us[..|us| - 1]) + us[|us| - 1].amount)
  }

  lemma WrapStep(a: int, b: int)
    ensures Wrap64(Wrap64(a) + b) == Wrap64(a + b)
  {
    var m := TWO_TO_64;
    var q := (a + TWO_TO_63) / m;
    assert Wrap64(a) == a - q * m;
    assert (a + b + TWO_TO_63 - q * m) % m == (a + b + TWO_TO_63) % m;
  }

  lemma {:induction false} TotalIsSum(us: seq<Utxo>)
    ensures Total(us) == Wrap64(Sum(us)) && (Total(us) - Sum(us)) % TWO_TO_64 == 0
    ensures -TWO_TO_63 <= Sum(us) < TWO_TO_63 ==> Total(us) == Sum(us)
  {
    if us != [] {
      TotalIsSum(us[..|us| - 1]);
      WrapStep(Sum(us[..|us| - 1]), us[|us| - 1].amount);
    }
  }

  /** From `taken` inputs on, take more while the total is below the target and any are left. */
  function Reach(all: seq<Utxo>, taken: nat, target: int64): (n: nat)
    requires taken <= |all|
    ensures taken <= n <= |all|
    decreases |all| - taken
  {
    if taken == |all| || Total(all[..taken]) >= target then taken else Reach(all, taken + 1, target)
  }

  /** The first stage at or after `taken` that meets the target, or all inputs if none does. */
  lemma {:induction false} ReachIsFirst(all: seq<Utxo>, taken: nat, target: int64, n: nat)
    requires taken <= n <= |all|
    ensures n == Reach(all, taken, target)
            <==> && (n == |all| || Total(all[..n]) >= target)
                 && (forall k :: taken <= k < n ==> Total(all[..k]) < target)
    decreases |all| - taken
  {
    if taken < |all| && Total(all[..taken]) < target {
      if taken < n {
        ReachIsFirst(all, taken + 1, target, n);
      }
    }
  }

  /** One more input taken. */
  lemma TakeNext(all: seq<Utxo>, taken: nat)
    requires taken < |all|
    ensures all[taken..][0] == all[taken] && all[taken..][1..] == all[taken + 1..]
    ensures Total(all[..taken + 1]) == Wrap64(Total(all[..taken]) + all[taken].amount)
    ensures all[..taken + 1] == all[..taken] + [all[taken]]
  {
    assert all[..taken + 1][..taken] == all[..taken];
  }

  lemma DescribesAppend(us: seq<Utxo>, u: Utxo, inputs: seq<OutPoint>, values: seq<int64>, scripts: seq<bytes>)
    requires Describes(us, inputs, values, scripts)
    ensures Describes(us + [u], inputs + [u.outPoint], values + [u.amount], scripts + [u.script])
  {
  }

  lemma DescribesPrefix(us: seq<Utxo>, k: nat, k': nat, inputs: seq<OutPoint>, values: seq<int64>, scripts: seq<bytes>,
                        inputs': seq<OutPoint>, values': seq<int64>, scripts': seq<bytes>)
    requires k <= k' <= |us| && Describes(us[..k], inputs, values, scripts) && Describes(us[..k'], inputs', values', scripts')
    ensures inputs <= inputs' && values <= values' && scripts <= scripts'
  {
    forall i | 0 <= i < k
      ensures inputs'[i] == inputs[i] && values'[i] == values[i] && scripts'[i] == scripts[i]
    {
      assert us[..k][i] == us[..k'][i];
    }
  }

  class Source {
    ghost const all: seq<Utxo>
    ghost var taken: nat
    var utxos: seq<Utxo>
    var currentTotal: int64
    var currentInputs: seq<OutPoint>
    var currentInputValues: seq<int64>
    var currentScripts: seq<bytes>

    /** Inputs, values and scripts describe the same prefix of the list; the rest is still to take. */
    ghost predicate Valid()
      reads this
    {
      && taken <= |all|
      && utxos == all[taken..]
      && currentTotal == Total(all[..taken])
      && Describes(all[..taken], currentInputs, currentInputValues, currentScripts)
    }

    constructor (utxos: seq<Utxo>)
      ensures Valid() && all == utxos && taken == 0
    {
      this.all, this.taken, this.utxos := utxos, 0, utxos;
      currentTotal, currentInputs, currentInputValues, currentScripts := 0, [], [], [];
    }

    /** Move one output from the list to the inputs. */
    method Take()
      requires Valid() && utxos != []
      modifies this
      ensures Valid() && taken == old(taken) + 1
    {
      TakeNext(all, taken);
      DescribesAppend(all[..taken], all[taken], currentInputs, currentInputValues, currentScripts);
      var nextCredit := utxos[0];
      utxos := utxos[1..];
      currentTotal := Wrap64(currentTotal + nextCredit.amount);
      currentInputs := currentInputs + [nextCredit.outPoint];
      currentScripts := currentScripts + [nextCredit.script];
      currentInputValues := currentInputValues + [nextCredit.amount];
      taken := taken + 1;
    }

    method Provide(target: int64) returns (total: int64, inputs: seq<OutPoint>, values: seq<int64>, scripts: seq<bytes>)
      requires Valid()
      modifies this
      ensures Valid()
      ensures taken == Reach(all, old(taken), target)
      ensures total == Total(all[..taken]) && Describes(all[..taken], inputs, values, scripts)
      ensures old(currentInputs) <= inputs && old(currentInputValues) <= values && old(currentScripts) <= scripts
      ensures total >= target || taken == |all|
    {
      while currentTotal < target && |utxos| != 0
        invariant Valid() && old(taken) <= taken
        invariant Reach(all, old(taken), target) == Reach(all, taken, target)
        decreases |all| - taken
      {
        Take();
      }
      DescribesPrefix(all, old(taken), taken, old(currentInputs), old(currentInputValues), old(currentScripts),
                      currentInputs, currentInputValues, currentScripts);
      return currentTotal, currentInputs, currentInputValues, currentScripts;
    }
  }

  predicate Describes(us: seq<Utxo>, inputs: seq<OutPoint>, values: seq<int64>, scripts: seq<bytes>) {
    && |inputs| == |values| == |scripts| == |us|
    && forall i :: 0 <= i < |us| ==> inputs[i] == us[i].outPoint && values[i] == us[i].amount && scripts[i] == us[i].script
  }

  // ---------- any sequence of calls ----------

  /** How many inputs are taken after calls with these targets on a fresh source. */
  function After(all: seq<Utxo>, targets: seq<int64>): (n: nat)
    ensures n <= |all|
  {
    if targets == [] then 0
    else Reach(all, After(all, targets[..|targets| - 1]), targets[|targets| - 1])
  }

  function Largest(targets: seq<int64>): (m: int64)
    requires targets != []
    ensures m in targets && forall t :: t in targets ==> t <= m
  {
    var last := targets[|targets| - 1];
    if |targets| == 1 then last
    else
      var m := Largest(targets[..|targets| - 1]);
      assert targets == targets[..|targets| - 1] + [last];
      if last > m then last else m
  }

  /**
   Only the largest target so far matters: any sequence of calls takes exactly what one call with the
   largest of its targets takes, so the last input taken was needed for that target.
   */
  lemma {:induction false} CallsTakeForLargest(all: seq<Utxo>, targets: seq<int64>)
    requires targets != []
    ensures After(all, targets) == Reach(all, 0, Largest(targets))
    ensures forall k :: 0 <= k < After(all, targets) ==> Total(all[..k]) < Largest(targets)
    ensures After(all, targets) == |all| || Total(all[..After(all, targets)]) >= Largest(targets)
  {
    var n := After(all, targets);
    var m := Largest(targets);
    var init, last := targets[..|targets| - 1], targets[|targets| - 1];
    var before := After(all, init);
    ReachIsFirst(all, before, last, n);
    if init != [] {
      CallsTakeForLargest(all, init);
      if last <= Largest(init) {
        assert m == Largest(init);
        ReachIsFirst(all, before, last, before);
      }
    }
    ReachIsFirst(all, 0, m, n);
  }

  // ---------- largest first uses the fewest inputs ----------

  predicate Descending(us: seq<Utxo>) {
    forall i, j :: 0 <= i < j < |us| ==> us[i].amount >= us[j].amount
  }

  /** The sum of the outputs at the positions in `picked`. */
  function SumOf(us: seq<Utxo>, picked: set<nat>): int {
    if us == [] then 0
    else
      var n := |us| - 1;
      SumOf(us[..n], picked) + (if n in picked then us[n].amount else 0)
  }

  lemma {:induction false} SumOfIgnoresOutside(us: seq<Utxo>, picked: set<nat>, n: nat)
    requires |us| <= n
    ensures SumOf(us, picked - {n}) == SumOf(us, picked)
  {
    if us != [] {
      SumOfIgnoresOutside(us[..|us| - 1], picked, n);
    }
  }

  /** Exchange argument: no choice of k outputs sums to more than the k largest. */
  lemma {:induction false} PrefixIsLargest(us: seq<Utxo>, picked: set<nat>)
    requires Descending(us) && forall i :: i in picked ==> i < |us|
    ensures |picked| <= |us| && SumOf(us, picked) <= Sum(us[..|picked|])
  {
    if us == [] {
      assert picked == {};
    } else {
      var n := |us| - 1;
      var init := us[..n];
      if n in picked {
        var rest := picked - {n};
        SumOfIgnoresOutside(init, picked, n);
        PrefixIsLargest(init, rest);
        var k := |rest|;
        assert us[..k + 1][..k] == init[..k];
        assert us[k].amount >= us[n].amount;
      } else {
        PrefixIsLargest(init, picked);
        assert us[..|picked|] == init[..|picked|];
      }
    }
  }

  lemma ReachedEarlier(us: seq<Utxo>, target: int64, j: nat)
    requires j <= |us| && Total(us[..j]) >= target
    ensures Reach(us, 0, target) <= j && Total(us[..Reach(us, 0, target)]) >= target
  {
    ReachIsFirst(us, 0, target, Reach(us, 0, target));
  }

  /** The sum of the first `k` outputs is in the 64-bit range. */
  predicate Fits(us: seq<Utxo>, k: nat) {
    k <= |us| ==> -TWO_TO_63 <= Sum(us[..k]) < TWO_TO_63
  }

  /** No prefix sum leaves the 64-bit range. */
  ghost predicate NoOverflow(us: seq<Utxo>) {
    forall k :: 0 <= k <= |us| ==> Fits(us, k)
  }

  /**
   Largest first takes the fewest: if some choice of outputs reaches the target, one call on a fresh source
   over the descending list reaches it too, with no more inputs. All this asks of the amounts is that the
   sum of as many of the largest as were chosen is in the 64-bit range.
   */
  lemma FewestInputs(us: seq<Utxo>, target: int64, picked: set<nat>)
    requires Descending(us) && Fits(us, |picked|)
    requires forall i :: i in picked ==> i < |us|
    requires SumOf(us, picked) >= target
    ensures var n := Reach(us, 0, target);
      n <= |picked| && Total(us[..n]) >= target && (Fits(us, n) ==> Sum(us[..n]) >= target)
  {
    PrefixIsLargest(us, picked);
    TotalIsSum(us[..|picked|]);
    ReachedEarlier(us, target, |picked|);
    TotalIsSum(us[..Reach(us, 0, target)]);
  }

  /** Whatever the target and the choice of outputs: a choice that reaches the target is never smaller
      than what one call on a fresh source takes, and that call reaches the target as well. */
  ghost predicate Optimal(us: seq<Utxo>) {
    forall target: int64, picked: set<nat> {:trigger Reach(us, 0, target), SumOf(us, picked)} ::
      (forall i :: i in picked ==> i < |us|) && SumOf(us, picked) >= target
      ==> Reach(us, 0, target) <= |picked| && Total(us[..Reach(us, 0, target)]) >= target
  }

  ghost predicate NonNegative(us: seq<Utxo>) {
    forall i :: 0 <= i < |us| ==> us[i].amount >= 0
  }

  /** Some prefix sums to the largest 64-bit value. */
  ghost predicate HitsMaximum(us: seq<Utxo>) {
    exists k :: 0 <= k <= |us| && Sum(us[..k]) == TWO_TO_63 - 1
  }

  lemma {:induction false} SumGrows(us: seq<Utxo>, j: nat, k: nat)
    requires NonNegative(us) && j <= k <= |us|
    ensures 0 <= Sum(us[..j]) <= Sum(us[..k])
    decreases k
  {
    if j < k {
      assert us[..k][..k - 1] == us[..k - 1];
      SumGrows(us, j, k - 1);
    } else if j > 0 {
      assert us[..j][..j - 1] == us[..j - 1];
      SumGrows(us, j - 1, j - 1);
    }
  }

  lemma FirstOverflow(us: seq<Utxo>, k: nat) returns (first: nat)
    requires NonNegative(us) && k <= |us| && Sum(us[..k]) >= TWO_TO_63
    ensures 0 < first <= k && Sum(us[..first]) >= TWO_TO_63 > Sum(us[..first - 1])
  {
    first := k;
    while Sum(us[..first - 1]) >= TWO_TO_63
      invariant 0 < first <= k && Sum(us[..first]) >= TWO_TO_63
      decreases first
    {
      first := first - 1;
    }
  }

  lemma {:induction false} SumOfAll(us: seq<Utxo>, k: nat)
    requires |us| <= k
    ensures SumOf(us, SetFacts.UpTo(k)) == Sum(us)
  {
    if us != [] {
      SumOfAll(us[..|us| - 1], k);
    }
  }

  lemma {:induction false} SumOfPrefix(us: seq<Utxo>, k: nat)
    requires k <= |us|
    ensures SumOf(us, SetFacts.UpTo(k)) == Sum(us[..k])
    decreases |us|
  {
    if k == |us| {
      SumOfAll(us, k);
      assert us[..k] == us;
    } else {
      var init := us[..|us| - 1];
      SumOfPrefix(init, k);
      assert init[..k] == us[..k];
    }
  }

  /** One addition that overflows leaves a negative total. */
  lemma WrapsNegative(a: int64, b: int64)
    requires a + b >= TWO_TO_63
    ensures Wrap64(a + b) < 0
  {
  }

  /** At the first overflow the total is below any target just past the sum before it. */
  lemma TotalsStayBelow(us: seq<Utxo>, k: nat, j: nat)
    requires NonNegative(us) && j <= k <= |us| && 0 < k
    requires Sum(us[..k]) >= TWO_TO_63 > Sum(us[..k - 1])
    ensures Total(us[..j]) <= Sum(us[..k - 1])
  {
    TotalIsSum(us[..j]);
    SumGrows(us, if j < k then j else 0, k - 1);
    if j == k {
      assert us[..k][..k - 1] == us[..k - 1];
      WrapsNegative(Sum(us[..k - 1]), us[k - 1].amount);
    }
  }

  lemma OverflowIsNotOptimal(us: seq<Utxo>, k: nat)
    requires NonNegative(us) && !HitsMaximum(us)
    requires 0 < k <= |us| && Sum(us[..k]) >= TWO_TO_63 > Sum(us[..k - 1])
    ensures !Optimal(us)
  {
    SumGrows(us, 0, k - 1);
    assert Sum(us[..k - 1]) != TWO_TO_63 - 1;
    var target: int64 := Sum(us[..k - 1]) + 1;
    var picked := SetFacts.UpTo(k);
    SumOfPrefix(us, k);
    var n := Reach(us, 0, target);
    if n <= k {
      TotalsStayBelow(us, k, n);
    }
    assert SumOf(us, picked) >= target && !(n <= |picked| && Total(us[..n]) >= target);
  }

  /**
   For non-negative amounts, exactly when largest first is optimal for every target: when no prefix sum
   leaves the 64-bit range, or some prefix sums to the largest 64-bit value, so that no target lies
   beyond it.
   */
  lemma OptimalIff(us: seq<Utxo>)
    requires Descending(us) && NonNegative(us)
    ensures Optimal(us) <==> NoOverflow(us) || HitsMaximum(us)
  {
    if NoOverflow(us) || HitsMaximum(us) {
      forall target: int64, picked: set<nat> | (forall i :: i in picked ==> i < |us|) && SumOf(us, picked) >= target
        ensures Reach(us, 0, target) <= |picked| && Total(us[..Reach(us, 0, target)]) >= target
      {
        PrefixIsLargest(us, picked);
        var j := |picked|;
        if HitsMaximum(us) {
          var k :| 0 <= k <= |us| && Sum(us[..k]) == TWO_TO_63 - 1;
          if k < j {
            j := k;
          }
          SumGrows(us, j, k);
        }
        assert Fits(us, j);
        TotalIsSum(us[..j]);
        ReachedEarlier(us, target, j);
      }
    } else {
      var k :| 0 <= k <= |us| && !Fits(us, k);
      SumGrows(us, 0, k);
      var first := FirstOverflow(us, k);
      OverflowIsNotOptimal(us, first);
    }
  }

  // ---------- the sort that precedes ----------

  function AmountOf(u: Utxo): int64 {
    u.amount
  }

  predicate Above(a: int64, b: int64) {
    a > b
  }

  /** The list is put into descending order of amount, in place. */
  method SortByAmountDescending(utxos: array<Utxo>)
    modifies utxos
    ensures multiset(utxos[..]) == multiset(old(utxos[..]))
    ensures Descending(utxos[..])
  {
    StableSort.SortByCorrect(utxos[..], AmountOf, Above);
    StableSort.Sort(utxos, AmountOf, Above);
    assert forall i, j :: 0 <= i < j < utxos.Length ==> !Above(AmountOf(utxos[..][j]), AmountOf(utxos[..][i]));
  }
}
