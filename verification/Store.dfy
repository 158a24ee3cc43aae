/**
 The in-memory unbonding store (internal/services/in_mem_store.go): a map from transaction hash to a
 record, whose data it hands out by reference. It refines an append-only queue of entries.
 */
module InMemStore {
  import opened Types
  import opened PipelineModel
  import BatchLaws
  import StableSort
  import WitnessGen

  /** A transaction; the pipeline replaces the witness of its first input in place. */
  class MsgTx {
    var body: TxBody
    var wit: Witness

    constructor (body: TxBody, wit: Witness)
      ensures this.body == body && this.wit == wit
    {
      this.body, this.wit := body, wit;
    }
  }

  class UnbondingTxData {
    const tx: MsgTx
    const hash: Hash
    const sig: Signature
    const info: StakingInfo
    const staking: StakingTxData

    constructor (tx: MsgTx, hash: Hash, sig: Signature, info: StakingInfo, staking: StakingTxData)
      ensures this.tx == tx && this.hash == hash && this.sig == sig && this.info == info && this.staking == staking
    {
      this.tx, this.hash, this.sig, this.info, this.staking := tx, hash, sig, info, staking;
    }
  }

  class Record {
    const data: UnbondingTxData
    const counter: nat
    ghost const attached: Witness // the witness the transaction carried when it was added
    var state: DocState

    constructor (data: UnbondingTxData, counter: nat, ghost attached: Witness)
      ensures this.data == data && this.counter == counter && this.attached == attached
      ensures state == Inserted
    {
      this.data, this.counter, this.attached := data, counter, attached;
      this.state := Inserted;
    }

    ghost function Entry(): Entry
      reads this, data.tx
    {
      PipelineModel.Entry(Submission(data.tx.body, attached, data.sig, data.info, data.staking), data.tx.wit, state)
    }
  }

  function CounterOf(r: Record): nat {
    r.counter
  }

  predicate CounterLess(a: nat, b: nat) {
    a < b
  }

  method SortByCounter(found: seq<Record>) returns (sorted: seq<Record>)
    ensures sorted == StableSort.SortBy(found, CounterOf, CounterLess)
  {
    var a := new Record[|found|](i requires 0 <= i < |found| => found[i]);
    assert a[..] == found;
    StableSort.Sort(a, CounterOf, CounterLess);
    sorted := a[..];
  }

  class InMemoryUnbondingStore {
    const txid: TxBody -> Hash
    var mapping: map<Hash, Record>
    ghost var order: seq<Record>  // the records in order of insertion
    ghost var contents: Queue     // the entries they stand for
    ghost var Repr: set<object>   // the records and their transactions

    /** The i-th record added: its counter, its hash, its place in the map and its entry. */
    ghost predicate RecordAt(i: nat)
      reads this, Repr
    {
      && i < |order| && i < |contents|
      && var r := order[i];
      && r in Repr && r.data.tx in Repr
      && r.counter == i + 1
      && r.data.hash == txid(r.data.tx.body)
      && r.data.hash in mapping && mapping[r.data.hash] == r
      && r.Entry() == contents[i]
    }

    /** The record under a key has the key as its hash and stands at the place its counter says. */
    ghost predicate MappedAt(h: Hash)
      reads this
    {
      && h in mapping
      && mapping[h].data.hash == h
      && 0 < mapping[h].counter <= |order|
      && order[mapping[h].counter - 1] == mapping[h]
    }

    /** Every key is its record's hash and its transaction's txid, and the counters are 1 .. size in
        order of insertion. */
    ghost predicate Valid()
      reads this, Repr
    {
      && this !in Repr
      && |mapping| == |order| == |contents|
      && (forall i {:trigger RecordAt(i)} :: 0 <= i < |order| ==> RecordAt(i))
      && (forall h {:trigger MappedAt(h)} :: h in mapping ==> MappedAt(h))
    }

    constructor (txid: TxBody -> Hash)
      ensures Valid() && contents == [] && order == [] && Repr == {}
      ensures this.txid == txid
    {
      this.txid := txid;
      mapping := map[];
      order, contents, Repr := [], [], {};
    }

    /** Records and their transactions are pairwise different objects. */
    lemma NoSharing(i: nat, j: nat)
      requires Valid() && i < |order| && j < |order| && i != j
      ensures order[i] != order[j] && order[i].data.tx != order[j].data.tx
      ensures order[i].data.hash != order[j].data.hash
    {
      assert RecordAt(i) && RecordAt(j);
    }

    lemma KnownIffMapped(hash: Hash)
      requires Valid()
      ensures (exists i :: 0 <= i < |contents| && txid(contents[i].sub.body) == hash) <==> hash in mapping
    {
      if hash in mapping {
        assert MappedAt(hash);
        var i := mapping[hash].counter - 1;
        assert RecordAt(i);
        assert txid(contents[i].sub.body) == hash;
      }
      if i: nat :| i < |contents| && txid(contents[i].sub.body) == hash {
        assert RecordAt(i);
      }
    }

    /** The counters in the map are exactly 1 .. size, each once. */
    lemma CountersArePermutation(c: nat)
      requires Valid()
      ensures (exists h :: h in mapping && mapping[h].counter == c) <==> 1 <= c <= |mapping|
      ensures forall h, h' :: h in mapping && h' in mapping && mapping[h].counter == mapping[h'].counter ==> h == h'
    {
      assert forall h :: h in mapping ==> MappedAt(h);
      if 1 <= c <= |mapping| {
        assert RecordAt(c - 1);
        assert mapping[order[c - 1].data.hash].counter == c;
      }
    }

    lemma RecordsOwned()
      requires Valid()
      ensures forall r :: r in mapping.Values ==> r in Repr
    {
      forall h | h in mapping
        ensures mapping[h] in Repr
      {
        assert MappedAt(h);
        assert RecordAt(mapping[h].counter - 1);
      }
    }

    /** Enter a record under a new hash. */
    method Insert(hash: Hash, record: Record)
      requires Valid() && hash !in mapping
      requires record.counter == |mapping| + 1 && record.data.hash == hash == txid(record.data.tx.body)
      modifies this
      ensures Valid()
      ensures order == old(order) + [record] && contents == old(contents) + [record.Entry()]
      ensures Repr == old(Repr) + {record, record.data.tx}
    {
      ghost var n := |order|;
      mapping := mapping[hash := record];
      order, contents, Repr := order + [record], contents + [record.Entry()], Repr + {record, record.data.tx};
      forall i | 0 <= i < |order|
        ensures RecordAt(i)
      {
        if i < n {
          assert old(RecordAt(i));
        }
      }
      forall h | h in mapping
        ensures MappedAt(h)
      {
        if h != hash {
          assert old(MappedAt(h));
        }
      }
    }

    /** A transaction whose hash is stored is refused and changes nothing; any other is appended. */
    method AddTxWithSignature(tx: MsgTx, sig: Signature, info: StakingInfo, sd: StakingTxData) returns (ok: bool)
      requires Valid()
      modifies this
      ensures Valid()
      ensures ok <==> forall e :: e in old(contents) ==> txid(e.sub.body) != txid(tx.body)
      ensures contents == old(contents) + if ok then [PipelineModel.Entry(Submission(tx.body, tx.wit, sig, info, sd), tx.wit, Inserted)] else []
      ensures !ok ==> mapping == old(mapping)
      ensures old(order) <= order && old(Repr) <= Repr && fresh(Repr - old(Repr) - {tx})
    {
      var hash := txid(tx.body);
      KnownIffMapped(hash);
      if hash in mapping {
        return false;
      }
      var nextCounter := |mapping| + 1;
      var data := new UnbondingTxData(tx, hash, sig, info, sd);
      var record := new Record(data, nextCounter, tx.wit);
      Insert(hash, record);
      return true;
    }

    /** The records in a state, in whatever order the map is iterated. */
    method Select(st: DocState) returns (res: seq<Record>)
      requires Valid()
      ensures forall r :: r in res <==> r in order && r.state == st
      ensures forall j, k :: 0 <= j < k < |res| ==> res[j] != res[k]
    {
      res := [];
      var keys := mapping.Keys;
      while keys != {}
        invariant keys <= mapping.Keys
        invariant forall r :: r in res <==> r.data.hash in mapping.Keys - keys && mapping[r.data.hash] == r && r.state == st
        invariant forall j, k :: 0 <= j < k < |res| ==> res[j] != res[k]
        decreases |keys|
      {
        var h :| h in keys;
        assert MappedAt(h);
        keys := keys - {h};
        var tx := mapping[h];
        if tx.state == st {
          res := res + [tx];
        }
      }
      forall r
        ensures r in order <==> r.data.hash in mapping && mapping[r.data.hash] == r
      {
        MappedIffOrdered(r);
      }
    }

    lemma MappedIffOrdered(r: Record)
      requires Valid()
      ensures r in order <==> r.data.hash in mapping && mapping[r.data.hash] == r
      ensures r in order <==> 0 < r.counter <= |order| && order[r.counter - 1] == r
    {
      if r in order {
        var i :| 0 <= i < |order| && order[i] == r;
        assert RecordAt(i);
      }
      if r.data.hash in mapping && mapping[r.data.hash] == r {
        assert MappedAt(r.data.hash);
      }
    }

    lemma SortedIsIncreasing(sorted: seq<Record>)
      requires Valid() && forall k :: 0 <= k < |sorted| ==> sorted[k] in order
      requires StableSort.Sorted(sorted, CounterOf, CounterLess)
      requires forall j, k :: 0 <= j < k < |sorted| ==> sorted[j] != sorted[k]
      ensures forall j, k :: 0 <= j < k < |sorted| ==> sorted[j].counter < sorted[k].counter
    {
      forall j, k | 0 <= j < k < |sorted|
        ensures sorted[j].counter < sorted[k].counter
      {
        MappedIffOrdered(sorted[j]);
        MappedIffOrdered(sorted[k]);
        assert !CounterLess(CounterOf(sorted[k]), CounterOf(sorted[j]));
      }
    }

    lemma PlacesAreFetched(sorted: seq<Record>, st: DocState, idxs: seq<nat>)
      requires Valid()
      requires forall r :: r in sorted <==> r in order && r.state == st
      requires |idxs| == |sorted|
      requires forall k :: 0 <= k < |sorted| ==> idxs[k] < |order| && order[idxs[k]] == sorted[k]
      ensures forall i: nat :: i in idxs <==> i < |contents| && contents[i].state == st
    {
      forall i: nat
        ensures i in idxs <==> i < |contents| && contents[i].state == st
      {
        if i < |order| {
          assert RecordAt(i);
          if order[i].state == st {
            assert order[i] in sorted;
            var k :| 0 <= k < |sorted| && sorted[k] == order[i];
            assert RecordAt(idxs[k]);
            assert idxs[k] == i;
          }
        }
        if i in idxs {
          var k :| 0 <= k < |idxs| && idxs[k] == i;
          assert sorted[k] in sorted;
        }
      }
    }

    lemma SortedIsFetch(sorted: seq<Record>, st: DocState)
      requires Valid()
      requires forall r :: r in sorted <==> r in order && r.state == st
      requires StableSort.Sorted(sorted, CounterOf, CounterLess)
      requires forall j, k :: 0 <= j < k < |sorted| ==> sorted[j] != sorted[k]
      ensures Fetched(sorted, st)
    {
      assert forall k :: 0 <= k < |sorted| ==> sorted[k] in sorted;
      SortedIsIncreasing(sorted);
      forall k | 0 <= k < |sorted|
        ensures 0 <= sorted[k].counter - 1 < |order| && order[sorted[k].counter - 1] == sorted[k]
      {
        MappedIffOrdered(sorted[k]);
      }
      var idxs: seq<nat> := seq(|sorted|, k requires 0 <= k < |sorted| => sorted[k].counter - 1);
      PlacesAreFetched(sorted, st, idxs);
      BatchLaws.FetchUnique(contents, st, idxs);
    }

    /** The records at the positions of a fetch, one by one. */
    ghost predicate Fetched(rs: seq<Record>, st: DocState)
      reads this
    {
      var idxs := Fetch(contents, st);
      |rs| == |idxs| && forall k :: 0 <= k < |rs| ==> idxs[k] < |order| && rs[k] == order[idxs[k]]
    }

    lemma SortedRecords(found: seq<Record>, sorted: seq<Record>)
      requires sorted == StableSort.SortBy(found, CounterOf, CounterLess)
      requires forall j, k :: 0 <= j < k < |found| ==> found[j] != found[k]
      ensures forall r :: r in sorted <==> r in found
      ensures StableSort.Sorted(sorted, CounterOf, CounterLess)
      ensures forall j, k :: 0 <= j < k < |sorted| ==> sorted[j] != sorted[k]
    {
      StableSort.SortByCorrect(found, CounterOf, CounterLess);
      WitnessGen.SameMembers(found, sorted);
      forall j, k | 0 <= j < k < |sorted|
        ensures sorted[j] != sorted[k]
      {
        if sorted[j] == sorted[k] {
          WitnessGen.MultiplicityOfRepeated(sorted, j, k);
          assert sorted[j] in found;
          var i :| 0 <= i < |found| && found[i] == sorted[j];
          WitnessGen.MultiplicityOfUnique(found, i);
        }
      }
    }

    /** The records in a state, sorted by counter. */
    method SelectSorted(st: DocState) returns (sorted: seq<Record>)
      requires Valid()
      ensures Fetched(sorted, st)
    {
      var found := Select(st);
      sorted := SortByCounter(found);
      SortedRecords(found, sorted);
      SortedIsFetch(sorted, st);
    }

    /** What each of the getters returns: the data of the records in a state, in insertion order. */
    ghost predicate Delivered(res: seq<UnbondingTxData>, st: DocState)
      reads this
    {
      var idxs := Fetch(contents, st);
      |res| == |idxs| && forall k :: 0 <= k < |res| ==> idxs[k] < |order| && res[k] == order[idxs[k]].data
    }

    method GetByState(st: DocState) returns (res: seq<UnbondingTxData>)
      requires Valid()
      ensures Delivered(res, st)
    {
      var sorted := SelectSorted(st);
      res := [];
      for i := 0 to |sorted|
        invariant |res| == i
        invariant forall k :: 0 <= k < i ==> res[k] == sorted[k].data
      {
        res := res + [sorted[i].data];
      }
    }

    method GetNotProcessedUnbondingTransactions() returns (res: seq<UnbondingTxData>)
      requires Valid()
      ensures Delivered(res, Inserted)
    {
      res := GetByState(Inserted);
    }

    method GetFailedUnbondingTransactions() returns (res: seq<UnbondingTxData>)
      requires Valid()
      ensures Delivered(res, Failed)
    {
      res := GetByState(Failed);
    }

    method GetUnbondingTransactionsWithNoQuorum() returns (res: seq<UnbondingTxData>)
      requires Valid()
      ensures Delivered(res, FailedToGetCovenantSignatures)
    {
      res := GetByState(FailedToGetCovenantSignatures);
    }

    /** What each of the setters does: the record with this hash, and nothing else, changes state; a hash
        that is no key of the map, and so by `KnownIffMapped` of no entry, is an error. */
    ghost predicate Updated(before: Queue, utx: UnbondingTxData, st: DocState, ok: bool)
      reads this
    {
      && (ok <==> utx.hash in mapping)
      && (!ok ==> contents == before)
      && (ok ==> && utx.hash in mapping && 0 < mapping[utx.hash].counter <= |before|
                 && contents == SetAt(before, mapping[utx.hash].counter - 1, st))
    }

    method SetState(utx: UnbondingTxData, st: DocState) returns (ok: bool)
      requires Valid()
      modifies this`contents, mapping.Values`state
      ensures Valid()
      ensures Updated(old(contents), utx, st, ok)
    {
      if utx.hash !in mapping {
        return false;
      }
      var tx := mapping[utx.hash];
      assert MappedAt(utx.hash);
      ghost var at: nat := tx.counter - 1;
      assert RecordAt(at);
      tx.state := st;
      contents := SetAt(contents, at, st);
      forall i | 0 <= i < |order|
        ensures RecordAt(i)
      {
        assert old(RecordAt(i));
      }
      forall h | h in mapping
        ensures MappedAt(h)
      {
        assert old(MappedAt(h));
      }
      return true;
    }

    method SetUnbondingTransactionProcessed(utx: UnbondingTxData) returns (ok: bool)
      requires Valid()
      modifies this`contents, mapping.Values`state
      ensures Valid() && Updated(old(contents), utx, DocState.Send, ok)
    {
      ok := SetState(utx, DocState.Send);
    }

    method SetUnbondingTransactionProcessingFailed(utx: UnbondingTxData) returns (ok: bool)
      requires Valid()
      modifies this`contents, mapping.Values`state
      ensures Valid() && Updated(old(contents), utx, Failed, ok)
    {
      ok := SetState(utx, Failed);
    }

    method SetUnbondingTransactionInputAlreadySpent(utx: UnbondingTxData) returns (ok: bool)
      requires Valid()
      modifies this`contents, mapping.Values`state
      ensures Valid() && Updated(old(contents), utx, InputAlreadySpent, ok)
    {
      ok := SetState(utx, InputAlreadySpent);
    }

    method SetUnbondingTransactionFailedToGetCovenantSignatures(utx: UnbondingTxData) returns (ok: bool)
      requires Valid()
      modifies this`contents, mapping.Values`state
      ensures Valid() && Updated(old(contents), utx, FailedToGetCovenantSignatures, ok)
    {
      ok := SetState(utx, FailedToGetCovenantSignatures);
    }
  }

  ghost function SetAt(q: Queue, i: nat, st: DocState): Queue
    requires i < |q|
  {
    q[i := q[i].(state := st)]
  }
}
