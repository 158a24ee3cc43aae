/**
 The pipeline over the in-memory store (internal/services/unbonding_pipeline.go): it works on the
 store's records through the references the store hands out, and refines `PipelineModel`.
 */
module Pipeline {
  import opened Integers
  import opened Types
  import opened Wrappers
  import opened WitnessGen
  import opened Collection
  import opened PipelineModel
  import opened InMemStore
  import BatchLaws
  import BroadcastLaws
  import MetricsLaws
  import Requirements
  import RunLaws

  class UnbondingPipeline {
    const world: World
    const store: InMemoryUnbondingStore
    var metrics: Metrics
    var clock: nat // attempts made so far
    ghost var history: seq<Event>

    ghost predicate Valid()
      reads this, store, store.Repr
    {
      && store.Valid() && this !in store.Repr
      && store.txid == world.txid
      && world.store.InMemory?
      && |history| == clock
    }

    ghost function State(): Sys
      requires Valid()
      reads this, store, store.Repr
    {
      Sys(store.contents, history, metrics)
    }

    constructor (world: World, store: InMemoryUnbondingStore)
      requires store.Valid() && store.txid == world.txid && world.store.InMemory?
      ensures Valid()
      ensures this.world == world && this.store == store
      ensures State() == Sys(store.contents, [], Metrics(0, 0, 0, 0, 0))
    {
      this.world, this.store := world, store;
      this.metrics, this.clock, this.history := Metrics(0, 0, 0, 0, 0), 0, [];
    }

    // ---------- signing ----------

    /** Ask one covenant member and check the signature it returns. */
    method RequestSigFromCovenant(r: Round, i: nat) returns (res: Option<Pair>)
      requires i < |r.keys|
      modifies this`metrics
      ensures res == Judge(r, i)
      ensures metrics == if res.Some? then old(metrics).(signOk := old(metrics).signOk + 1)
                         else old(metrics).(signFailed := old(metrics).signFailed + 1)
    {
      var sigPair := r.replies(i);
      if sigPair.None? {
        metrics := metrics.(signFailed := metrics.signFailed + 1);
        return None;
      }
      if !r.verify(r.keys[i].x, sigPair.value.sig) {
        metrics := metrics.(signFailed := metrics.signFailed + 1);
        return None;
      }
      metrics := metrics.(signOk := metrics.signOk + 1);
      return sigPair;
    }

    /** All workers' requests, with the success and failure counts they leave. */
    method RequestAll(r: Round) returns (results: seq<Option<Pair>>)
      modifies this`metrics
      ensures |results| == |r.keys| && forall k :: 0 <= k < |r.keys| ==> results[k] == Judge(r, k)
      ensures metrics == Signed(old(metrics), |GoodWorkers(r)|, |r.keys| - |GoodWorkers(r)|)
    {
      results := [];
      for i := 0 to |r.keys|
        invariant |results| == i && forall k :: 0 <= k < i ==> results[k] == Judge(r, k)
        invariant metrics == Signed(old(metrics), Successes(results), i - Successes(results))
      {
        var res := RequestSigFromCovenant(r, i);
        assert (results + [res])[..i] == results;
        results := results + [res];
      }
      SuccessesCounted(r, results);
    }

    method SignUnbondingTransaction(body: TxBody, params: SystemParams, built: Built, a: Answers)
        returns (sigs: Option<seq<Pair>>)
      modifies this`metrics
      ensures sigs == Collected(world, body, a, params, built)
      ensures var good := Requirements.Verifying(world, params.keys, Message(body, built.output, built.script), a.replies);
        && (sigs.None? <==> |good| < params.quorum)
        && metrics == Signed(old(metrics), |good|, |params.keys| - |good|) == CountRound(world, old(metrics), body, a, params, built)
    {
      BroadcastLaws.GoodAreVerifying(world, body, a, params, built);
      BroadcastLaws.CollectedMeaning(world, body, a, params, built);
      var r := RoundFor(world, body, a, params, built);
      var n := |params.keys|;
      var results := RequestAll(r);
      var arrival := a.arrivals(n);
      assert ArrivalOrder(arrival, n);
      var received := seq(n, k requires 0 <= k < n => Msg(arrival[k], results[arrival[k]]));
      assert received == Msgs(r, arrival);
      sigs := CollectQuorum(received, params.quorum);
    }

    method CreateUnbondingTxWitness(params: SystemParams, stakerSig: Signature, sigs: seq<Pair>, a: Answers)
        returns (wit: Option<Witness>)
      ensures wit == if a.witnessOk then Some(Witness(WitnessSlots(params.keys, sigs), stakerSig)) else None
    {
      var keys := new PubKey[|params.keys|](i requires 0 <= i < |params.keys| => params.keys[i]);
      assert keys[..] == params.keys;
      var covenant := CreateWitnessSignaturesForPubKeys(keys, sigs);
      if !a.witnessOk {
        return None;
      }
      return Some(Witness(covenant[..], stakerSig));
    }

    // ---------- one transaction ----------

    /** One transaction added by someone else. */
    method Admit(sub: Submission)
      requires Valid()
      modifies store
      ensures Valid()
      ensures store.contents == Accept(world, old(store.contents), sub)
      ensures old(store.order) <= store.order
      ensures old(store.Repr) <= store.Repr && fresh(store.Repr - old(store.Repr))
    {
      var tx := new MsgTx(sub.body, sub.attached);
      var ok := store.AddTxWithSignature(tx, sub.sig, sub.info, sub.staking);
    }

    /** Transactions others add while one is processed. */
    method AdmitAll(adds: seq<Submission>)
      requires Valid()
      modifies store
      ensures Valid()
      ensures store.contents == AddAll(world, old(store.contents), adds)
      ensures old(store.order) <= store.order
      ensures old(store.Repr) <= store.Repr && fresh(store.Repr - old(store.Repr))
    {
      assert adds[0..] == adds;
      for i := 0 to |adds|
        invariant Valid()
        invariant old(store.order) <= store.order
        invariant old(store.Repr) <= store.Repr && fresh(store.Repr - old(store.Repr))
        invariant AddAll(world, old(store.contents), adds) == AddAll(world, store.contents, adds[i..])
      {
        assert adds[i..][0] == adds[i] && adds[i..][1..] == adds[i + 1..];
        Admit(adds[i]);
      }
    }

    /** Replace the witness of a fetched transaction, in place: the store stays valid, since neither
        the hash nor the txid depends on it, and only this entry changes. */
    method AttachWitness(utx: UnbondingTxData, wit: Witness, ghost i: nat)
      requires store.Valid() && i < |store.order| && utx == store.order[i].data
      modifies store`contents, utx.tx`wit
      ensures store.Valid()
      ensures i < |old(store.contents)| && store.contents == WithWitness(old(store.contents), i, wit)
      ensures utx.tx.wit == wit
    {
      assert store.RecordAt(i);
      utx.tx.wit := wit;
      store.contents := WithWitness(store.contents, i, wit);
      forall j | 0 <= j < |store.order|
        ensures store.RecordAt(j)
      {
        assert old(store.RecordAt(j)) && old(store.RecordAt(i));
      }
      forall h | h in store.mapping
        ensures store.MappedAt(h)
      {
        assert old(store.MappedAt(h));
      }
    }

    /** The checks before signing. */
    method PrepareSigning(utx: UnbondingTxData, a: Answers, ghost sub: Submission) returns (r: Result<(SystemParams, Built), Why>)
      requires sub.body == utx.tx.body && sub.info == utx.info && sub.staking == utx.staking
      ensures r == Prepare(world, sub, a)
      ensures r.Ok? <==> Requirements.ChecksPass(world, a, sub)
      ensures r.Ok? ==> r.value == (Requirements.ParamsInForce(a).value, Requirements.BuiltFor(world, a, sub))
      ensures r.Err? ==> Requirements.FirstMissing(world, a, sub, r.error)
    {
      BroadcastLaws.PrepareMeaning(world, a, sub);
      var body := utx.tx.body;
      var sd := utx.staking;
      if |sd.tx.outputs| <= sd.outputIndex || body.inputs == [] {
        return Err(Malformed);
      }
      var stakingOutputFromDb := sd.tx.outputs[sd.outputIndex];
      if a.height.None? {
        return Err(TxNotFound);
      }
      var params := a.paramsAt(a.height.value);
      if params.None? {
        return Err(NoParams);
      }
      var recovered := world.build(utx.info, params.value);
      if recovered.None? {
        return Err(CannotRebuild);
      }
      if !OutputsAreEqual(recovered.value.output, stakingOutputFromDb) {
        return Err(OutputMismatch);
      }
      return Ok((params.value, recovered.value));
    }

    /** The spendability check and, unless that says the input is spent, the broadcast. */
    method Broadcast(utx: UnbondingTxData, a: Answers) returns (verdict: Verdict)
      requires utx.tx.body.inputs != []
      ensures verdict == BroadcastVerdict(a, OutPoint(utx.tx.body.inputs[0].hash, utx.staking.outputIndex % TWO_TO_32))
    {
      var stakingTxHash := utx.tx.body.inputs[0].hash;
      var spendable := a.spendable(stakingTxHash, utx.staking.outputIndex % TWO_TO_32);
      if spendable.Some? && !spendable.value {
        return AlreadySpent;
      }
      if a.sendOk {
        return SendOk;
      }
      return SendFailed;
    }

    /** The part after signing: the witness is built and attached, and the transaction broadcast. */
    method AttachAndBroadcast(utx: UnbondingTxData, params: SystemParams, sigs: seq<Pair>, a: Answers, ghost i: nat)
        returns (verdict: Verdict)
      requires Valid() && i < |store.order| && utx == store.order[i].data && utx.tx.body.inputs != []
      modifies store`contents, utx.tx`wit
      ensures store.Valid() && i < |old(store.contents)|
      ensures verdict == if a.witnessOk then BroadcastVerdict(a, OutPoint(utx.tx.body.inputs[0].hash, utx.staking.outputIndex % TWO_TO_32))
                         else Critical(WitnessError)
      ensures store.contents == if a.witnessOk then WithWitness(old(store.contents), i, Witness(WitnessSlots(params.keys, sigs), utx.sig))
                                else old(store.contents)
    {
      assert store.RecordAt(i);
      var wit := CreateUnbondingTxWitness(params, utx.sig, sigs, a);
      if wit.None? {
        return Critical(WitnessError);
      }
      AttachWitness(utx, wit.value, i);
      verdict := Broadcast(utx, a);
    }

    /** The part after the checks: signing and, with a quorum, witness and broadcast. */
    method SignAndBroadcast(utx: UnbondingTxData, params: SystemParams, built: Built, a: Answers, ghost i: nat) returns (verdict: Verdict)
      requires Valid() && i < |store.order| && utx == store.order[i].data
      requires i < |store.contents| && store.contents[i].sub.body.inputs != []
      modifies this`metrics, store`contents, utx.tx`wit
      ensures store.Valid() && i < |old(store.contents)|
      ensures var e := old(store.contents)[i];
        var d := Concluded(e, a, params, Collected(world, e.sub.body, a, params, built));
        && verdict == d.verdict
        && store.contents == WithWitness(old(store.contents), i, d.wit)
        && metrics == CountRound(world, old(metrics), e.sub.body, a, params, built)
    {
      assert store.RecordAt(i);
      ghost var e := store.contents[i];
      assert WithWitness(store.contents, i, e.wit) == store.contents;
      var sigs := SignUnbondingTransaction(utx.tx.body, params, built, a);
      if sigs.None? {
        return NoQuorum;
      }
      verdict := AttachAndBroadcast(utx, params, sigs.value, a, i);
    }

    /** Everything up to the verdict on one transaction, the new witness included. */
    method Attempt(utx: UnbondingTxData, a: Answers, ghost i: nat) returns (verdict: Verdict)
      requires Valid() && i < |store.order| && utx == store.order[i].data
      modifies this`metrics, store`contents, utx.tx`wit
      ensures store.Valid() && i < |old(store.contents)|
      ensures var e := old(store.contents)[i];
        var d := Decide(world, e, a);
        && verdict == d.verdict
        && store.contents == WithWitness(old(store.contents), i, d.wit)
        && metrics == CountSigning(world, old(metrics), e.sub, a)
    {
      assert store.RecordAt(i);
      ghost var e := store.contents[i];
      DecideInParts(world, e, a, metrics);
      var prepared := PrepareSigning(utx, a, e.sub);
      if prepared.Err? {
        assert WithWitness(store.contents, i, e.wit) == store.contents;
        return Critical(prepared.error);
      }
      var (params, built) := prepared.value;
      verdict := SignAndBroadcast(utx, params, built, a, i);
    }

    /** Record the verdict in the store and in the counters. */
    method Settle(utx: UnbondingTxData, verdict: Verdict, ghost i: nat) returns (outcome: Outcome)
      requires Valid() && i < |store.order| && utx == store.order[i].data
      modifies this`metrics, store`contents, store.mapping.Values`state
      ensures store.Valid() && i < |old(store.contents)|
      ensures outcome == if verdict.Critical? then StoppedAt(verdict.why) else Finished
      ensures store.contents == if verdict.Critical? then old(store.contents) else SetAt(old(store.contents), i, Target(verdict))
      ensures metrics == CountVerdict(old(metrics), verdict, !verdict.Critical?)
    {
      assert store.RecordAt(i);
      var ok: bool;
      match verdict {
        case Critical(why) =>
          return StoppedAt(why);
        case NoQuorum =>
          metrics := metrics.(noQuorum := metrics.noQuorum + 1);
          ok := store.SetUnbondingTransactionFailedToGetCovenantSignatures(utx);
          if !ok { return StoreWriteFailed; }
        case AlreadySpent =>
          ok := store.SetUnbondingTransactionInputAlreadySpent(utx);
          if !ok { return StoreWriteFailed; }
        case SendFailed =>
          ok := store.SetUnbondingTransactionProcessingFailed(utx);
          if !ok { return StoreWriteFailed; }
          metrics := metrics.(sendFailed := metrics.sendFailed + 1);
        case SendOk =>
          ok := store.SetUnbondingTransactionProcessed(utx);
          if !ok { return StoreWriteFailed; }
          metrics := metrics.(sent := metrics.sent + 1);
      }
      return Finished;
    }

    // ---------- batches and runs ----------

    /** The verdict on one transaction, the store write and the record of the attempt. */
    method ProcessFetched(utx: UnbondingTxData, a: Answers, ghost i: nat) returns (outcome: Outcome)
      requires Valid() && i < |store.order| && utx == store.order[i].data
      modifies this, store`contents, store.Repr
      ensures Valid() && i < |old(store.contents)|
      ensures var e := old(store.contents)[i];
        var d := Decide(world, e, a);
        var q := WithWitness(old(store.contents), i, d.wit);
        && store.contents == (if d.verdict.Critical? then q else SetAt(q, i, Target(d.verdict)))
        && history == old(history) + [Event(i, e.sub, d.verdict, d.wit, !d.verdict.Critical?)]
        && metrics == CountVerdict(CountSigning(world, old(metrics), e.sub, a), d.verdict, !d.verdict.Critical?)
        && outcome == if d.verdict.Critical? then StoppedAt(d.verdict.why) else Finished
    {
      assert store.RecordAt(i);
      ghost var e := store.contents[i];
      ghost var d := Decide(world, e, a);
      var verdict := Attempt(utx, a, i);
      store.RecordsOwned();
      outcome := Settle(utx, verdict, i);
      clock := clock + 1;
      history := history + [Event(i, e.sub, d.verdict, d.wit, !d.verdict.Critical?)];
    }

    /** One iteration of the batch loop. */
    method ProcessOne(utx: UnbondingTxData, ghost i: nat) returns (outcome: Outcome)
      requires Valid() && i < |store.order| && utx == store.order[i].data
      modifies this, store, store.Repr
      ensures Valid()
      ensures old(store.order) <= store.order && old(store.Repr) <= store.Repr && fresh(store.Repr - old(store.Repr))
      ensures i < |old(store.contents)| && Res(State(), outcome) == Step(world, old(State()), i)
    {
      StepInParts(world, State(), i);
      var a := world.answers(clock);
      AdmitAll(a.adds);
      outcome := ProcessFetched(utx, a, i);
    }

    /** The transactions handed over are those at the given positions of the store. */
    ghost predicate Positions(transactions: seq<UnbondingTxData>, idxs: seq<nat>)
      reads this, store
    {
      && |transactions| == |idxs|
      && forall k :: 0 <= k < |idxs| ==> idxs[k] < |store.order| && transactions[k] == store.order[idxs[k]].data
    }

    /** The batch loop: the first critical error ends it. */
    method ProcessUnbondingTransactions(transactions: seq<UnbondingTxData>, ghost idxs: seq<nat>) returns (outcome: Outcome)
      requires Valid() && Positions(transactions, idxs)
      modifies this, store, store.Repr
      ensures Valid()
      ensures old(store.order) <= store.order && old(store.Repr) <= store.Repr && fresh(store.Repr - old(store.Repr))
      ensures InRange(idxs, |old(State()).queue|)
      ensures Res(State(), outcome) == Batch(world, old(State()), idxs)
    {
      ghost var s0, order0 := State(), store.order;
      assert idxs[0..] == idxs;
      for k := 0 to |transactions|
        invariant Valid()
        invariant order0 <= store.order && old(store.Repr) <= store.Repr && fresh(store.Repr - old(store.Repr))
        invariant InRange(idxs, |store.contents|)
        invariant Batch(world, s0, idxs) == Batch(world, State(), idxs[k..])
      {
        assert store.order[idxs[k]] == order0[idxs[k]];
        BatchNext(world, State(), idxs, k);
        var step := ProcessOne(transactions[k], idxs[k]);
        if !step.Finished? {
          return step;
        }
      }
      return Finished;
    }

    method ProcessNewTransactions() returns (outcome: Outcome)
      requires Valid()
      modifies this, store, store.Repr
      ensures Valid() && fresh(store.Repr - old(store.Repr))
      ensures Res(State(), outcome) == ProcessNew(world, old(State()), true)
      ensures State() == Perform(world, old(State()), RunNew(true))
    {
      var unbondingTransactions := store.GetNotProcessedUnbondingTransactions();
      ghost var idxs := Fetch(store.contents, Inserted);
      if |unbondingTransactions| == 0 {
        assert idxs == [];
        return Finished;
      }
      outcome := ProcessUnbondingTransactions(unbondingTransactions, idxs);
    }

    /** First phase: the transactions that failed to get a quorum. */
    method ProcessNoQuorumPhase() returns (outcome: Outcome)
      requires Valid()
      modifies this, store, store.Repr
      ensures Valid() && old(store.Repr) <= store.Repr && fresh(store.Repr - old(store.Repr))
      ensures Res(State(), outcome) == Batch(world, old(State()), Fetch(old(State()).queue, FailedToGetCovenantSignatures))
    {
      var unbondingTxWithNoQuorum := store.GetUnbondingTransactionsWithNoQuorum();
      outcome := ProcessUnbondingTransactions(unbondingTxWithNoQuorum, Fetch(store.contents, FailedToGetCovenantSignatures));
    }

    /** Second phase: the other failed transactions. */
    method ProcessFailedPhase() returns (outcome: Outcome)
      requires Valid()
      modifies this, store, store.Repr
      ensures Valid() && old(store.Repr) <= store.Repr && fresh(store.Repr - old(store.Repr))
      ensures Res(State(), outcome) == Batch(world, old(State()), Fetch(old(State()).queue, Failed))
    {
      var unbondingTransactions := store.GetFailedUnbondingTransactions();
      outcome := ProcessUnbondingTransactions(unbondingTransactions, Fetch(store.contents, Failed));
    }

    /** The second fetch sees what the first batch left in the store. */
    method ProcessFailedTransactions() returns (outcome: Outcome)
      requires Valid()
      modifies this, store, store.Repr
      ensures Valid() && fresh(store.Repr - old(store.Repr))
      ensures Res(State(), outcome) == ProcessFailed(world, old(State()), true, true)
      ensures State() == Perform(world, old(State()), RunFailed(true, true))
    {
      FailedInParts(world, State());
      outcome := ProcessNoQuorumPhase();
      if outcome.Finished? {
        outcome := ProcessFailedPhase();
      }
    }

    // ---------- sequences of operations ----------

    /** Additions and runs in any order: the store, the counters and the attempts are those of the model. */
    method RunOps(ops: seq<Op>)
      requires Valid()
      requires forall k :: 0 <= k < |ops| ==> OverMemory(ops[k])
      modifies this, store, store.Repr
      ensures Valid() && fresh(store.Repr - old(store.Repr))
      ensures State() == Execute(world, old(State()), ops)
    {
      assert ops[..0] == [];
      for k := 0 to |ops|
        invariant Valid()
        invariant fresh(store.Repr - old(store.Repr))
        invariant State() == Execute(world, old(State()), ops[..k])
      {
        assert ops[..k + 1][..k] == ops[..k];
        match ops[k] {
          case AddTx(sub) => Admit(sub);
          case RunNew(_) => var outcome := ProcessNewTransactions();
          case RunFailed(_, _) => var outcome := ProcessFailedTransactions();
        }
      }
      assert ops[..|ops|] == ops;
    }

    /** What a new pipeline over an empty store has done after any operations: each transaction was sent
        successfully exactly once if it is in `Send` and otherwise never, every `SendTx` passed the gate,
        no hash is stored twice, and the counters agree with the attempts. */
    method RunFromEmpty(ops: seq<Op>)
      requires Valid() && State() == EMPTY_SYS
      requires forall k :: 0 <= k < |ops| ==> OverMemory(ops[k])
      modifies this, store, store.Repr
      ensures Valid() && State() == Execute(world, EMPTY_SYS, ops)
      ensures RunLaws.SentExactly(State()) && RunLaws.DistinctHashes(world, store.contents)
      ensures MetricsLaws.Tallied(world, State())
      ensures forall t :: 0 <= t < |history| && Requirements.SendCalled(history[t].verdict) ==>
                Requirements.Gate(world, world.answers(t), history[t].sub, history[t].wit)
    {
      RunOps(ops);
      RunLaws.BroadcastAtMostOnce(world, ops);
      RunLaws.NeverStoredTwice(world, ops);
      MetricsLaws.CountersAgree(world, ops);
      forall t | 0 <= t < |history| && Requirements.SendCalled(history[t].verdict)
        ensures Requirements.Gate(world, world.answers(t), history[t].sub, history[t].wit)
      {
        BroadcastLaws.BroadcastGate(world, ops, t);
      }
    }
  }

  /** The in-memory store always answers a fetch. */
  predicate OverMemory(op: Op) {
    match op
    case AddTx(_) => true
    case RunNew(fetched) => fetched
    case RunFailed(fetchedNoQuorum, fetchedFailed) => fetchedNoQuorum && fetchedFailed
  }

  function Successes(results: seq<Option<Pair>>): (n: nat)
    ensures n <= |results|
  {
    if results == [] then 0
    else Successes(results[..|results| - 1]) + (if results[|results| - 1].Some? then 1 else 0)
  }

  lemma {:induction false} SuccessesAre(results: seq<Option<Pair>>)
    ensures Successes(results) == |set k: nat | k < |results| && results[k].Some?|
  {
    var good := set k: nat | k < |results| && results[k].Some?;
    if results != [] {
      var n := |results| - 1;
      SuccessesAre(results[..n]);
      var before := set k: nat | k < n && results[..n][k].Some?;
      assert good == if results[n].Some? then before + {n} else before;
    }
  }

  lemma SuccessesCounted(r: Round, results: seq<Option<Pair>>)
    requires |results| == |r.keys| && forall k :: 0 <= k < |r.keys| ==> results[k] == Judge(r, k)
    ensures Successes(results) == |GoodWorkers(r)|
  {
    SuccessesAre(results);
    forall k: nat | k < |r.keys|
      ensures results[k].Some? <==> k in GoodWorkers(r)
    {
      JudgeMeaning(r, k, results[k]);
    }
    assert GoodWorkers(r) == set k: nat | k < |results| && results[k].Some?;
  }

  /** The counters after the requests of a signing round. */
  ghost function CountRound(w: World, m: Metrics, body: TxBody, a: Answers, params: SystemParams, built: Built): Metrics {
    var good := |GoodWorkers(RoundFor(w, body, a, params, built))|;
    Signed(m, good, |params.keys| - good)
  }

  /** What is decided once the signatures are collected. */
  ghost function Concluded(e: Entry, a: Answers, params: SystemParams, sigs: Option<seq<Pair>>): Decision
    requires e.sub.body.inputs != []
  {
    if sigs.None? then Decision(NoQuorum, e.wit)
    else if !a.witnessOk then Decision(Critical(WitnessError), e.wit)
    else Decision(BroadcastVerdict(a, OutPoint(e.sub.body.inputs[0].hash, e.sub.staking.outputIndex % TWO_TO_32)),
                  Witness(WitnessSlots(params.keys, sigs.value), e.sub.sig))
  }

  /** A decision, put together from what its parts compute. */
  lemma DecideInParts(w: World, e: Entry, a: Answers, m: Metrics)
    ensures match Prepare(w, e.sub, a)
      case Err(why) => Decide(w, e, a) == Decision(Critical(why), e.wit) && CountSigning(w, m, e.sub, a) == m
      case Ok((params, built)) =>
        && e.sub.body.inputs != []
        && Decide(w, e, a) == Concluded(e, a, params, Collected(w, e.sub.body, a, params, built))
        && CountSigning(w, m, e.sub, a) == CountRound(w, m, e.sub.body, a, params, built)
  {
  }

  lemma FailedInParts(w: World, s: Sys)
    ensures var first := Batch(w, s, Fetch(s.queue, FailedToGetCovenantSignatures));
      ProcessFailed(w, s, true, true)
      == if first.outcome.Finished? then Batch(w, first.s, Fetch(first.s.queue, Failed)) else first
  {
  }

  lemma BatchNext(w: World, s: Sys, idxs: seq<nat>, k: nat)
    requires k < |idxs| && InRange(idxs, |s.queue|)
    ensures var r := Step(w, s, idxs[k]);
      && InRange(idxs, |r.s.queue|)
      && Batch(w, s, idxs[k..]) == if r.outcome.Finished? then Batch(w, r.s, idxs[k + 1..]) else r
  {
    assert idxs[k..][1..] == idxs[k + 1..];
    BatchLaws.BatchUnfold(w, s, idxs[k..]);
  }

  /** A step over the in-memory store, put together from what its parts compute. */
  lemma StepInParts(w: World, s: Sys, i: nat)
    requires w.store.InMemory? && i < |s.queue|
    ensures var a := w.answers(|s.history|);
      var q := AddAll(w, s.queue, a.adds);
      var d := Decide(w, q[i], a);
      var q' := WithWitness(q, i, d.wit);
      && q[i] == s.queue[i]
      && Step(w, s, i)
         == Res(Sys(if d.verdict.Critical? then q' else SetAt(q', i, Target(d.verdict)),
                    s.history + [Event(i, s.queue[i].sub, d.verdict, d.wit, !d.verdict.Critical?)],
                    CountVerdict(CountSigning(w, s.metrics, q[i].sub, a), d.verdict, !d.verdict.Critical?)),
                if d.verdict.Critical? then StoppedAt(d.verdict.why) else Finished)
  {
    var q := AddAll(w, s.queue, w.answers(|s.history|).adds);
    assert q[i] == q[..|s.queue|][i];
  }

  ghost function WithWitness(q: Queue, i: nat, wit: Witness): Queue
    requires i < |q|
  {
    q[i := q[i].(wit := wit)]
  }
}
