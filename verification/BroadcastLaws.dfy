/**
 When the pipeline broadcasts: the gate every `SendTx` has passed, and what keeps a transaction from
 being sent twice when a store write is lost.
 */
module BroadcastLaws {
  import opened Bytes
  import opened Types
  import opened Wrappers
  import opened WitnessGen
  import opened CovenantScript
  import opened Collection
  import opened PipelineModel
  import opened BatchLaws
  import opened Integers
  import opened Requirements
  import opened RunLaws
  import SetFacts

  // ---------- the checks before signing ----------

  /** When the checks before signing succeed and with what, and otherwise the first thing missing. */
  lemma PrepareMeaning(w: World, a: Answers, sub: Submission)
    ensures var r := Prepare(w, sub, a);
      && (r.Ok? <==> ChecksPass(w, a, sub))
      && (r.Ok? ==> r.value == (ParamsInForce(a).value, BuiltFor(w, a, sub)))
      && (r.Err? ==> FirstMissing(w, a, sub, r.error))
  {
  }

  // ---------- the decision ----------

  function RoundOf(w: World, a: Answers, sub: Submission): Round
    requires ChecksPass(w, a, sub)
  {
    RoundFor(w, sub.body, a, ParamsInForce(a).value, BuiltFor(w, a, sub))
  }

  /** The round the workers run is the one that is asked for. */
  lemma RoundAsRequired(w: World, a: Answers, sub: Submission)
    requires ChecksPass(w, a, sub)
    ensures GoodWorkers(RoundOf(w, a, sub)) == Signers(w, a, sub)
    ensures Credible(RoundOf(w, a, sub), ParamsInForce(a).value.quorum) <==> CredibleSigners(w, a, sub)
  {
    var r, signers := RoundOf(w, a, sub), Signers(w, a, sub);
    GoodAreVerifying(w, sub.body, a, ParamsInForce(a).value, BuiltFor(w, a, sub));
    assert forall i: nat :: i in signers <==> i < |r.keys| && Verified(r, i);
    forall i | i in signers
      ensures Vouched(r.verify, r.keys, r.replies(i).value)
              <==> OwnSignature(w, r.keys, ToSign(w, a, sub), a.replies(i))
    {
    }
    SameCredibility(r, signers, w, ToSign(w, a, sub), ParamsInForce(a).value.quorum);
  }

  lemma SameCredibility(r: Round, signers: set<nat>, w: World, m: Message, quorum: nat)
    requires forall i: nat :: i in signers <==> i < |r.keys| && Verified(r, i)
    requires forall i :: i in signers ==>
               r.replies(i).Some? && (Vouched(r.verify, r.keys, r.replies(i).value) <==> OwnSignature(w, r.keys, m, r.replies(i)))
    ensures Credible(r, quorum)
            <==> && (quorum >= 1 ==> forall i :: i in signers ==> OwnSignature(w, r.keys, m, r.replies(i)))
                 && (quorum >= 2 ==> forall i, j :: i in signers && j in signers && i < j ==> DifferentNames(r.replies(i), r.replies(j)))
  {
    assert AllVouched(r) <==> forall i :: i in signers ==> OwnSignature(w, r.keys, m, r.replies(i)) by {
      if AllVouched(r) {
        assert forall i :: i in signers ==> Vouched(r.verify, r.keys, r.replies(i).value);
      }
    }
    assert NoneShared(r) <==> forall i, j :: i in signers && j in signers && i < j ==> DifferentNames(r.replies(i), r.replies(j));
  }

  /** Which requests of a round count as good ones. */
  lemma GoodAreVerifying(w: World, body: TxBody, a: Answers, params: SystemParams, built: Built)
    ensures GoodWorkers(RoundFor(w, body, a, params, built))
            == Verifying(w, params.keys, Message(body, built.output, built.script), a.replies)
  {
    var r := RoundFor(w, body, a, params, built);
    assert forall i: nat :: i in GoodWorkers(r) <==> i < |r.keys| && Verified(r, i);
  }

  /** What is collected: nothing if fewer replies verify than the quorum, and otherwise the first quorum many
      that do, in order of arrival. */
  lemma CollectedMeaning(w: World, body: TxBody, a: Answers, params: SystemParams, built: Built)
    ensures var sigs := Collected(w, body, a, params, built);
      var good := Verifying(w, params.keys, Message(body, built.output, built.script), a.replies);
      && (sigs.None? <==> |good| < params.quorum)
      && (sigs.Some? ==> && |sigs.value| == params.quorum
                         && exists at :: Earliest(a.replies, good, a.arrivals(|params.keys|), at, sigs.value))
  {
    GoodAreVerifying(w, body, a, params, built);
    CollectedIff(w, body, a, params, built);
    if Collected(w, body, a, params, built).Some? {
      var at := EarliestCollected(RoundFor(w, body, a, params, built), a.arrivals(|params.keys|), params.quorum);
    }
  }

  lemma SlotsAccepted(verify: Verifier, params: SystemParams, pairs: seq<Pair>)
    requires ProperCommittee(params)
    requires GoodPairs(verify, params.keys, pairs) && |pairs| == params.quorum
    ensures var (sorted, covenant) := (SortForWitness(params.keys), WitnessSlots(params.keys, pairs));
      && |covenant| == |sorted| == |params.keys|
      && AllVerify(verify, sorted, covenant) && Filled(covenant) == params.quorum
  {
    var desc := SortForWitness(params.keys);
    WitnessOrder(params.keys, []);
    SameMembers(desc, params.keys);
    WitnessOrderReversesScriptOrder(params.keys);
    GoodPairsAcceptedIff(verify, params, pairs);
    MultisigAcceptsIff(verify, desc, Slots(desc, pairs), params.quorum);
  }

  /** Filled slots that all verify are accepted, whichever way the verification is handed over. */
  lemma VerifiedSlotsAccepted(verify: Verifier, params: SystemParams, covenant: seq<Option<Signature>>)
    requires ProperCommittee(params)
    requires |covenant| == |SortForWitness(params.keys)| == |params.keys|
    requires AllVerify(verify, SortForWitness(params.keys), covenant) && Filled(covenant) == params.quorum
    ensures Accepts(verify, CovenantScriptOf(params), StackOf(covenant))
  {
    WitnessOrderReversesScriptOrder(params.keys);
    MultisigAcceptsIff(verify, SortForWitness(params.keys), covenant, params.quorum);
  }

  lemma MsgsTruthful(r: Round, order: seq<nat>)
    requires ArrivalOrder(order, |r.keys|)
    ensures NoRepeats(Msgs(r, order)) && Truthful(r, Msgs(r, order))
    ensures Senders(Msgs(r, order)) == SetFacts.UpTo(|r.keys|)
  {
    var msgs := Msgs(r, order);
    SendersCount(msgs);
    SetFacts.SubsetSize(Senders(msgs), SetFacts.UpTo(|r.keys|));
  }

  lemma CollectedGood(w: World, sub: Submission, a: Answers, params: SystemParams, built: Built)
    requires Credible(RoundFor(w, sub.body, a, params, built), params.quorum)
    requires Collected(w, sub.body, a, params, built).Some?
    ensures var pairs := Collected(w, sub.body, a, params, built).value;
      GoodPairs(VerifierFor(w, sub.body, built), params.keys, pairs) && |pairs| == params.quorum
  {
    var r := RoundFor(w, sub.body, a, params, built);
    var msgs := Msgs(r, a.arrivals(|params.keys|));
    MsgsTruthful(r, a.arrivals(|params.keys|));
    var workers := PairsFrom(r, msgs);
    CredibleIsGood(r, Pairs(msgs), workers, params.quorum);
  }

  /** Collection succeeds if and only if enough requests return a verifying signature. */
  lemma CollectedIff(w: World, body: TxBody, a: Answers, params: SystemParams, built: Built)
    ensures Collected(w, body, a, params, built).Some?
            <==> |GoodWorkers(RoundFor(w, body, a, params, built))| >= params.quorum
  {
    var r := RoundFor(w, body, a, params, built);
    var order := a.arrivals(|params.keys|);
    MsgsTruthful(r, order);
    PairsCount(r, Msgs(r, order));
    assert SetFacts.UpTo(|r.keys|) * GoodWorkers(r) == GoodWorkers(r);
  }

  /**
   When each verdict is reached. A critical error exactly when a check fails, for the first thing missing,
   or a quorum signs and the witness cannot be built; no quorum exactly when the checks pass and fewer
   than quorum members return a signature verifying under their key; otherwise the transaction is found
   spent exactly when the chain says so of the staking output, or else handed to `SendTx`, and recorded as
   sent exactly when that call succeeds.
   */
  lemma VerdictMeaning(w: World, e: Entry, a: Answers)
    ensures var (v, sub) := (Decide(w, e, a).verdict, e.sub);
      && (v.Critical? <==> !ChecksPass(w, a, sub) || (QuorumSigns(w, a, sub) && !a.witnessOk))
      && (v.Critical? && !ChecksPass(w, a, sub) ==> FirstMissing(w, a, sub, v.why))
      && (v.Critical? && ChecksPass(w, a, sub) ==> v.why == WitnessError)
      && (v == NoQuorum <==> ChecksPass(w, a, sub) && |Signers(w, a, sub)| < ParamsInForce(a).value.quorum)
      && (v == AlreadySpent <==> && Signable(w, a, sub)
                                 && a.spendable(sub.body.inputs[0].hash, sub.staking.outputIndex % TWO_TO_32) == Some(false))
      && (SendCalled(v) <==> && Signable(w, a, sub)
                             && a.spendable(sub.body.inputs[0].hash, sub.staking.outputIndex % TWO_TO_32) != Some(false))
      && (v == SendOk <==> SendCalled(v) && a.sendOk)
  {
    PrepareMeaning(w, a, e.sub);
    if ChecksPass(w, a, e.sub) {
      RoundAsRequired(w, a, e.sub);
      CollectedIff(w, e.sub.body, a, ParamsInForce(a).value, BuiltFor(w, a, e.sub));
    }
  }

  lemma DecidedWitness(w: World, e: Entry, a: Answers)
    requires Signable(w, a, e.sub)
    ensures var (params, built) := (ParamsInForce(a).value, BuiltFor(w, a, e.sub));
      var sigs := Collected(w, e.sub.body, a, params, built);
      sigs.Some? && Decide(w, e, a).wit == Witness(WitnessSlots(params.keys, sigs.value), e.sub.sig)
  {
    PrepareMeaning(w, a, e.sub);
    RoundAsRequired(w, a, e.sub);
    CollectedIff(w, e.sub.body, a, ParamsInForce(a).value, BuiltFor(w, a, e.sub));
  }

  lemma SlotsFromPairs(keys: seq<PubKey>, kept: seq<Pair>)
    ensures SlotsHold(SortForWitness(keys), kept, WitnessSlots(keys, kept))
  {
    var (sorted, slots) := (SortForWitness(keys), WitnessSlots(keys, kept));
    forall i | 0 <= i < |sorted|
      ensures SlotHolds(sorted[i].x, kept, slots[i])
    {
      LastSignatureIsLast(kept, sorted[i].x);
    }
  }

  /** The witness is replaced exactly when the attempt gets that far, and then by the staker's signature
      and the slots filled from the first verifying answers. */
  lemma WitnessMeaning(w: World, e: Entry, a: Answers)
    ensures var wit := Decide(w, e, a).wit;
      && (!Signable(w, a, e.sub) ==> wit == e.wit)
      && (Signable(w, a, e.sub) ==> wit.Witness? && wit.staker == e.sub.sig && FilledFromAnswers(w, a, e.sub, wit.covenant))
  {
    if Signable(w, a, e.sub) {
      DecidedWitness(w, e, a);
      CollectedMeaning(w, e.sub.body, a, ParamsInForce(a).value, BuiltFor(w, a, e.sub));
      SlotsFromPairs(Committee(w, a, e.sub), Collected(w, e.sub.body, a, ParamsInForce(a).value, BuiltFor(w, a, e.sub)).value);
    } else {
      PrepareMeaning(w, a, e.sub);
      if ChecksPass(w, a, e.sub) {
        RoundAsRequired(w, a, e.sub);
        CollectedIff(w, e.sub.body, a, ParamsInForce(a).value, BuiltFor(w, a, e.sub));
      }
    }
  }

  // ---------- the gate ----------

  lemma CredibleIsWitnessed(w: World, e: Entry, a: Answers)
    requires Signable(w, a, e.sub) && ProperCommittee(ParamsInForce(a).value) && CredibleSigners(w, a, e.sub)
    ensures Decide(w, e, a).wit.Witness? && FullyWitnessed(w, a, e.sub, Decide(w, e, a).wit.covenant)
  {
    var params, built, m := ParamsInForce(a).value, BuiltFor(w, a, e.sub), ToSign(w, a, e.sub);
    RoundAsRequired(w, a, e.sub);
    DecidedWitness(w, e, a);
    CollectedGood(w, e.sub, a, params, built);
    SlotsAccepted(VerifierFor(w, e.sub.body, built), params, Collected(w, e.sub.body, a, params, built).value);
    VerifiedSlotsAccepted(ScriptVerifier(w, m), params, Decide(w, e, a).wit.covenant);
  }

  lemma DecisionGate(w: World, e: Entry, a: Answers)
    requires SendCalled(Decide(w, e, a).verdict)
    ensures Gate(w, a, e.sub, Decide(w, e, a).wit)
  {
    VerdictMeaning(w, e, a);
    WitnessMeaning(w, e, a);
    if ProperCommittee(ParamsInForce(a).value) && CredibleSigners(w, a, e.sub) {
      CredibleIsWitnessed(w, e, a);
    }
  }

  /** When a transaction blocks the queue from its head: at any time a check fails, or a quorum signs and
      the witness cannot be built. */
  lemma AlwaysCriticalIff(w: World, sub: Submission)
    ensures AlwaysCritical(w, sub)
            <==> forall t: nat :: var a := w.answers(t);
                   !ChecksPass(w, a, sub) || (QuorumSigns(w, a, sub) && !a.witnessOk)
  {
    forall e: Entry, t: nat | e.sub == sub
      ensures Decide(w, e, w.answers(t)).verdict.Critical? <==>
              var a := w.answers(t); !ChecksPass(w, a, sub) || (QuorumSigns(w, a, sub) && !a.witnessOk)
    {
      VerdictMeaning(w, e, w.answers(t));
    }
    if AlwaysCritical(w, sub) {
      forall t: nat
        ensures var a := w.answers(t); !ChecksPass(w, a, sub) || (QuorumSigns(w, a, sub) && !a.witnessOk)
      {
        assert Decide(w, Entry(sub, sub.attached, Inserted), w.answers(t)).verdict.Critical?;
      }
    }
  }

  /** In every run, every transaction handed to `SendTx` has passed the gate. */
  lemma BroadcastGate(w: World, ops: seq<Op>, t: nat)
    requires t < |Execute(w, EMPTY_SYS, ops).history|
    ensures var ev := Execute(w, EMPTY_SYS, ops).history[t];
      SendCalled(ev.verdict) ==> Gate(w, w.answers(t), ev.sub, ev.wit)
  {
    var s := Execute(w, EMPTY_SYS, ops);
    ExecuteChronicle(w, ops);
    assert Recounts(w, s.queue, s.history[t], t);
    var ev := s.history[t];
    if SendCalled(ev.verdict) {
      var e: Entry :| e.sub == ev.sub && Decide(w, e, w.answers(t)) == Decision(ev.verdict, ev.wit);
      DecisionGate(w, e, w.answers(t));
    }
  }

  /**
   In every run, every filled covenant slot of a transaction handed to `SendTx` holds a signature that a
   member returned, that verifies for this transaction and the rebuilt output under the key that member was
   asked for, and that was returned under the slot's own key; and if the answers are credible it verifies
   under the slot's own key.
   */
  lemma SentSignaturesVerify(w: World, ops: seq<Op>, t: nat, i: nat)
    requires t < |Execute(w, EMPTY_SYS, ops).history|
    requires SendCalled(Execute(w, EMPTY_SYS, ops).history[t].verdict)
    requires Execute(w, EMPTY_SYS, ops).history[t].wit.Witness?
    requires i < |Execute(w, EMPTY_SYS, ops).history[t].wit.covenant|
    requires Execute(w, EMPTY_SYS, ops).history[t].wit.covenant[i].Some?
    ensures var (ev, a) := (Execute(w, EMPTY_SYS, ops).history[t], w.answers(t));
      && a.height.Some? && a.paramsAt(a.height.value).Some?
      && var params := a.paramsAt(a.height.value).value;
      && w.build(ev.sub.info, params).Some?
      && var built := w.build(ev.sub.info, params).value;
      && i < |SortForWitness(params.keys)|
      && var x := SortForWitness(params.keys)[i].x;
      && var sig := ev.wit.covenant[i].value;
      && (exists j :: && 0 <= j < |params.keys| && a.replies(j).Some?
                      && a.replies(j).value.key.x == x && a.replies(j).value.sig == sig
                      && w.verify(params.keys[j].x, sig, Message(ev.sub.body, built.output, built.script)))
      && (ChecksPass(w, a, ev.sub) && ProperCommittee(params) && CredibleSigners(w, a, ev.sub) ==>
            w.verify(x, sig, Message(ev.sub.body, built.output, built.script)))
  {
    BroadcastGate(w, ops, t);
    var ev := Execute(w, EMPTY_SYS, ops).history[t];
    SlotComesFromAnswer(w, w.answers(t), ev.sub, ev.wit.covenant, i);
  }

  lemma SlotComesFromAnswer(w: World, a: Answers, sub: Submission, covenant: seq<Option<Signature>>, i: nat)
    requires ChecksPass(w, a, sub) && FilledFromAnswers(w, a, sub, covenant)
    requires i < |covenant| && covenant[i].Some?
    ensures var keys := Committee(w, a, sub);
      && i < |SortForWitness(keys)|
      && exists j :: && 0 <= j < |keys| && a.replies(j).Some?
                     && a.replies(j).value.key.x == SortForWitness(keys)[i].x && a.replies(j).value.sig == covenant[i].value
                     && w.verify(keys[j].x, covenant[i].value, ToSign(w, a, sub))
  {
    var keys := Committee(w, a, sub);
    var order := a.arrivals(|keys|);
    var at, kept: seq<Pair> :|
      && |kept| == ParamsInForce(a).value.quorum
      && Earliest(a.replies, Signers(w, a, sub), order, at, kept)
      && SlotsHold(SortForWitness(keys), kept, covenant);
    assert SlotHolds(SortForWitness(keys)[i].x, kept, covenant[i]);
    var k: nat :| LastNamed(kept, SortForWitness(keys)[i].x, k) && kept[k].sig == covenant[i].value;
    assert order[at[k]] in Signers(w, a, sub) && a.replies(order[at[k]]) == Some(kept[k]);
  }

  // ---------- scheduling answers and schedules ----------

  function OrderOf(order: seq<nat>): (f: Arrivals)
    requires ArrivalOrder(order, |order|)
    ensures f(|order|) == order
  {
    (n: nat) => if n == |order| then order else InOrder(n)
  }

  /**
   What the model collects under some scheduling answer is exactly what the concurrent collector can
   return under some schedule of its workers.
   */
  lemma SchedulesCovered(w: World, body: TxBody, a: Answers, params: SystemParams, built: Built, sigs: Option<seq<Pair>>)
    ensures var r := RoundFor(w, body, a, params, built);
      (exists order: Arrivals :: Collected(w, body, a.(arrivals := order), params, built) == sigs)
      <==> exists schedule :: Finishes(r, schedule) && Returned(r, schedule, params.quorum) == sigs
  {
    var r := RoundFor(w, body, a, params, built);
    if order: Arrivals :| Collected(w, body, a.(arrivals := order), params, built) == sigs {
      assert RoundFor(w, body, a.(arrivals := order), params, built) == r;
      EveryArrivalOrderOccurs(r, order(|params.keys|));
    }
    if schedule: seq<Action> :| Finishes(r, schedule) && Returned(r, schedule, params.quorum) == sigs {
      var order := ReceivedInArrivalOrder(r, schedule);
      var a' := a.(arrivals := OrderOf(order));
      assert RoundFor(w, body, a', params, built) == r;
      assert Collected(w, body, a', params, built) == sigs;
    }
  }

  /** However the signing workers are scheduled, the transaction is sent fully witnessed. */
  ghost predicate WitnessedOnEverySchedule(w: World, e: Entry, a: Answers)
    requires ChecksPass(w, a, e.sub)
  {
    forall order: Arrivals ::
      var wit := Decide(w, e, a.(arrivals := order)).wit;
      wit.Witness? && FullyWitnessed(w, a, e.sub, wit.covenant)
  }

  lemma RejectedOrder(r: Round, params: SystemParams) returns (order: seq<nat>)
    requires r.keys == params.keys && ProperCommittee(params)
    requires |GoodWorkers(r)| >= params.quorum && !Credible(r, params.quorum)
    ensures ArrivalOrder(order, |r.keys|)
    ensures var sigs := Quorum(Pairs(Msgs(r, order)), params.quorum);
      sigs.Some? && !ScriptAccepts(r, params, sigs.value)
  {
    var schedule := SpoilingSchedule(r, params.quorum);
    CollectedWitnessSatisfiesScript(r, params, schedule);
    order := ReceivedInArrivalOrder(r, schedule);
  }

  /** An order of arrival under which answers that are not credible spoil the witness. */
  lemma SpoilingOrder(w: World, e: Entry, a: Answers) returns (order: Arrivals)
    requires Signable(w, a, e.sub) && ProperCommittee(ParamsInForce(a).value)
    requires !CredibleSigners(w, a, e.sub)
    ensures var sigs := Collected(w, e.sub.body, a.(arrivals := order), ParamsInForce(a).value, BuiltFor(w, a, e.sub));
      sigs.Some? && !ScriptAccepts(RoundOf(w, a, e.sub), ParamsInForce(a).value, sigs.value)
  {
    RoundAsRequired(w, a, e.sub);
    var rejected := RejectedOrder(RoundOf(w, a, e.sub), ParamsInForce(a).value);
    order := OrderOf(rejected);
    var a' := a.(arrivals := order);
    assert RoundFor(w, e.sub.body, a', ParamsInForce(a).value, BuiltFor(w, a, e.sub)) == RoundOf(w, a, e.sub);
  }

  /** Slots the script rejects with one way of handing over the verification are not fully witnessed. */
  lemma RejectedIsNotWitnessed(w: World, a: Answers, sub: Submission, pairs: seq<Pair>)
    requires ChecksPass(w, a, sub) && ProperCommittee(ParamsInForce(a).value)
    requires !ScriptAccepts(RoundOf(w, a, sub), ParamsInForce(a).value, pairs)
    ensures !FullyWitnessed(w, a, sub, WitnessSlots(Committee(w, a, sub), pairs))
  {
    var params, covenant := ParamsInForce(a).value, WitnessSlots(Committee(w, a, sub), pairs);
    if FullyWitnessed(w, a, sub, covenant) {
      VerifiedSlotsAccepted(RoundOf(w, a, sub).verify, params, covenant);
    }
  }

  /**
   The signer's half of the gate is exact: an attempt that gets as far as a witness builds one that the
   covenant script accepts on every schedule if and only if the signer's answers are credible.
   */
  lemma GateIsExact(w: World, e: Entry, a: Answers)
    requires Signable(w, a, e.sub) && ProperCommittee(ParamsInForce(a).value)
    ensures WitnessedOnEverySchedule(w, e, a) <==> CredibleSigners(w, a, e.sub)
  {
    if CredibleSigners(w, a, e.sub) {
      forall order: Arrivals
        ensures var wit := Decide(w, e, a.(arrivals := order)).wit;
          wit.Witness? && FullyWitnessed(w, a, e.sub, wit.covenant)
      {
        SameRequirements(w, a, e.sub, order);
        CredibleIsWitnessed(w, e, a.(arrivals := order));
      }
    } else {
      var order := SpoilingOrder(w, e, a);
      SameRequirements(w, a, e.sub, order);
      DecidedWitness(w, e, a.(arrivals := order));
      var sigs := Collected(w, e.sub.body, a.(arrivals := order), ParamsInForce(a).value, BuiltFor(w, a, e.sub));
      RejectedIsNotWitnessed(w, a, e.sub, sigs.value);
      assert Decide(w, e, a.(arrivals := order)).wit.Witness?;
    }
  }

  /** What is required of the signer and of a witness does not depend on the order of arrival. */
  lemma SameRequirements(w: World, a: Answers, sub: Submission, order: Arrivals)
    requires ChecksPass(w, a, sub)
    ensures var a' := a.(arrivals := order);
      && ChecksPass(w, a', sub) && ParamsInForce(a') == ParamsInForce(a) && BuiltFor(w, a', sub) == BuiltFor(w, a, sub)
      && Signers(w, a', sub) == Signers(w, a, sub)
      && (CredibleSigners(w, a', sub) <==> CredibleSigners(w, a, sub))
      && (Signable(w, a', sub) <==> Signable(w, a, sub))
      && forall covenant :: FullyWitnessed(w, a', sub, covenant) <==> FullyWitnessed(w, a, sub, covenant)
  {
  }

  // ---------- lost writes ----------

  /** How often this transaction was sent successfully, whatever entries of the queue hold it. */
  function SendsOf(h: seq<Event>, body: TxBody): nat {
    if h == [] then 0
    else
      var last := h[|h| - 1];
      SendsOf(h[..|h| - 1], body) + (if last.sub.body == body && last.verdict == SendOk then 1 else 0)
  }

  /** After a transaction was sent successfully, the chain reports the outputs it spends as spent. */
  ghost predicate HonestChain(w: World, h: seq<Event>) {
    forall t0, t :: 0 <= t0 < t < |h| && h[t0].verdict == SendOk ==> ReportsSpent(w.answers(t), h[t0].sub.body)
  }

  ghost predicate ReportsSpent(a: Answers, body: TxBody) {
    forall o :: o in body.inputs ==> a.spendable(o.hash, o.index) == Some(false)
  }

  /** The output the spendability check asks for, the transaction of the first input with the staking
      output index cut to 32 bits, is one the transaction itself spends. */
  predicate ChecksOwnInput(sub: Submission) {
    Indexable(sub) ==> OutPoint(sub.body.inputs[0].hash, sub.staking.outputIndex % TWO_TO_32) in sub.body.inputs
  }

  /** Once its inputs are reported spent a transaction is not sent any more: an attempt that gets as far
      as the spendability check finds it spent, and one that does not is critical or without quorum. */
  lemma SpentInputIsNotSent(w: World, e: Entry, a: Answers)
    requires ChecksOwnInput(e.sub) && ReportsSpent(a, e.sub.body)
    ensures !SendCalled(Decide(w, e, a).verdict)
    ensures Decide(w, e, a).verdict == AlreadySpent <==> Signable(w, a, e.sub)
  {
    VerdictMeaning(w, e, a);
  }

  /** What was recorded as sent or as found spent is in that state. */
  ghost predicate Settled(q: Queue, h: seq<Event>) {
    forall t :: 0 <= t < |h| ==> SettledEvent(q, h[t])
  }

  ghost predicate SettledEvent(q: Queue, ev: Event) {
    && ev.who < |q|
    && (ev.written && ev.verdict == SendOk ==> q[ev.who].state == DocState.Send)
    && (ev.written && ev.verdict == AlreadySpent ==> q[ev.who].state == InputAlreadySpent)
  }

  lemma ForwardSettled(q: Queue, q': Queue, ev: Event)
    requires Forward(q, q') && SettledEvent(q, ev)
    ensures SettledEvent(q', ev)
  {
    assert EntryForward(q[ev.who], q'[ev.who]);
  }

  lemma OutcomeSettled(s: Sys, st: DocState, r: Res)
    requires !Final(st) && BatchOutcome(s, Fetch(s.queue, st), r) && Settled(s.queue, s.history)
    ensures Settled(r.s.queue, r.s.history)
  {
    OutcomeForward(s, st, r);
    var idxs, events := Fetch(s.queue, st), NewEvents(s, r.s);
    forall t | 0 <= t < |r.s.history|
      ensures SettledEvent(r.s.queue, r.s.history[t])
    {
      if t < |s.history| {
        ForwardSettled(s.queue, r.s.queue, s.history[t]);
      } else {
        var k := t - |s.history|;
        assert r.s.history[t] == events[k];
        assert Recorded(s.queue[idxs[k]].state, r.s.queue[idxs[k]].state, events[k]);
      }
    }
  }

  lemma BatchSettled(w: World, s: Sys, st: DocState)
    requires !Final(st) && Settled(s.queue, s.history)
    ensures var s' := Batch(w, s, Fetch(s.queue, st)).s;
      Settled(s'.queue, s'.history)
  {
    FetchMeaning(s.queue, st);
    BatchLaw(w, s, Fetch(s.queue, st));
    OutcomeSettled(s, st, Batch(w, s, Fetch(s.queue, st)));
  }

  lemma PerformSettled(w: World, s: Sys, op: Op)
    requires Settled(s.queue, s.history)
    ensures Settled(Perform(w, s, op).queue, Perform(w, s, op).history)
  {
    match op {
      case AddTx(sub) =>
        assert forall t :: 0 <= t < |s.history| ==> SettledEvent(s.queue, s.history[t]);
      case RunNew(fetched) =>
        BatchSettled(w, s, Inserted);
      case RunFailed(f1, f2) =>
        BatchSettled(w, s, FailedToGetCovenantSignatures);
        BatchSettled(w, Batch(w, s, Fetch(s.queue, FailedToGetCovenantSignatures)).s, Failed);
    }
  }

  lemma {:induction false} ExecuteSettled(w: World, ops: seq<Op>)
    ensures var s := Execute(w, EMPTY_SYS, ops); Settled(s.queue, s.history)
  {
    if ops != [] {
      ExecuteSettled(w, ops[..|ops| - 1]);
      PerformSettled(w, Execute(w, EMPTY_SYS, ops[..|ops| - 1]), ops[|ops| - 1]);
    }
  }

  /**
   What becomes of a transaction that was sent successfully and is attempted again because the write was
   lost or the store holds it twice: nothing is sent; an attempt that gets as far as the spendability
   check tries to mark it already spent, and if that is recorded it stays so to the end of the run.
   */
  lemma LaterAttemptMarksSpent(w: World, ops: seq<Op>, t0: nat, t: nat)
    requires var h := Execute(w, EMPTY_SYS, ops).history;
      && HonestChain(w, h) && t0 < t < |h|
      && h[t0].sub.body == h[t].sub.body && h[t0].verdict == SendOk && ChecksOwnInput(h[t].sub)
    ensures var s := Execute(w, EMPTY_SYS, ops);
      var ev := s.history[t];
      && !SendCalled(ev.verdict)
      && (ev.verdict == AlreadySpent <==> Signable(w, w.answers(t), ev.sub))
      && (ev.verdict == AlreadySpent && WriteTaken(w, t) ==> ev.who < |s.queue| && s.queue[ev.who].state == InputAlreadySpent)
  {
    var s := Execute(w, EMPTY_SYS, ops);
    ExecuteChronicle(w, ops);
    ExecuteSettled(w, ops);
    var ev := s.history[t];
    assert Recounts(w, s.queue, ev, t) && SettledEvent(s.queue, ev);
    var e: Entry :| e.sub == ev.sub && Decide(w, e, w.answers(t)) == Decision(ev.verdict, ev.wit);
    assert ReportsSpent(w.answers(t), s.history[t0].sub.body);
    SpentInputIsNotSent(w, e, w.answers(t));
  }

  lemma {:induction false} AtMostOneSend(h: seq<Event>, body: TxBody)
    requires forall t0, t :: 0 <= t0 < t < |h| && h[t0].sub.body == h[t].sub.body == body && h[t0].verdict == SendOk
                             ==> h[t].verdict != SendOk
    ensures SendsOf(h, body) <= 1
    ensures SendsOf(h, body) > 0 ==> exists t :: 0 <= t < |h| && h[t].sub.body == body && h[t].verdict == SendOk
  {
    if h != [] {
      var n := |h| - 1;
      AtMostOneSend(h[..n], body);
      if SendsOf(h[..n], body) > 0 {
        var t :| 0 <= t < |h[..n]| && h[..n][t].sub.body == body && h[..n][t].verdict == SendOk;
        assert h[t].sub.body == body && h[t].verdict == SendOk;
      }
    }
  }

  /** Every entry with this transaction asks for an output it spends itself. */
  ghost predicate AllCheckOwnInput(q: Queue, body: TxBody) {
    forall i :: 0 <= i < |q| && q[i].sub.body == body ==> ChecksOwnInput(q[i].sub)
  }

  /**
   Whatever store writes are lost, whether or not the store refuses a transaction it has, and whatever
   the sequence of operations: if the chain is honest, a transaction whose checks ask for its own input
   is never sent successfully twice.
   */
  lemma AtMostOnceDespiteLostWrites(w: World, ops: seq<Op>, body: TxBody)
    requires HonestChain(w, Execute(w, EMPTY_SYS, ops).history)
    requires AllCheckOwnInput(Execute(w, EMPTY_SYS, ops).queue, body)
    ensures SendsOf(Execute(w, EMPTY_SYS, ops).history, body) <= 1
  {
    var s := Execute(w, EMPTY_SYS, ops);
    ExecuteChronicle(w, ops);
    forall t0, t | 0 <= t0 < t < |s.history| && s.history[t0].sub.body == s.history[t].sub.body == body
                   && s.history[t0].verdict == SendOk
      ensures s.history[t].verdict != SendOk
    {
      assert Recounts(w, s.queue, s.history[t], t);
      LaterAttemptMarksSpent(w, ops, t0, t);
    }
    AtMostOneSend(s.history, body);
  }

  /** Every entry with the transaction of `sub` has its staking data. */
  ghost predicate SubmittedAs(q: Queue, sub: Submission) {
    forall i :: 0 <= i < |q| && q[i].sub.body == sub.body ==> q[i].sub.staking == sub.staking
  }

  /** If the chain has been honest, this transaction has been sent successfully at most once. */
  ghost predicate SentOnceAtMost(w: World, s: Sys, sub: Submission) {
    HonestChain(w, s.history) && SubmittedAs(s.queue, sub) ==> SendsOf(s.history, sub.body) <= 1
  }

  /** No run over an honest chain, with this hash function and any lost writes, in a store that does or
      does not refuse known hashes, sends this transaction successfully twice. */
  ghost predicate NeverSentTwice(txid: TxBody -> Hash, unique: bool, sub: Submission) {
    forall w: World, ops: seq<Op> ::
      w.txid == txid && (w.store.Fallible? ==> w.store.unique == unique) ==>
      SentOnceAtMost(w, Execute(w, EMPTY_SYS, ops), sub)
  }

  // A world that sends `sub` again and again: one covenant member, everything answered in favour,
  // the inputs of `sub` reported spent, and every store write lost.

  const SOME_KEY := PubKey(false, seq(32, _ => 0))
  const SOME_SIG: Signature := seq(64, _ => 0)

  function LostAnswers(sub: Submission): Answers {
    Answers([], Some(0), (_: nat) => Some(SystemParams([SOME_KEY], 1, [])), (_: nat) => Some(Pair(SOME_KEY, SOME_SIG)),
            InOrder, true, (h: Hash, n: nat) => Some(OutPoint(h, n) !in sub.body.inputs), true)
  }

  function LostWorld(txid: TxBody -> Hash, unique: bool, sub: Submission): World
    requires Indexable(sub)
  {
    World(txid, (_: XOnly, _: Signature, _: Message) => true,
          (_: StakingInfo, _: SystemParams) => Some(Built(sub.staking.tx.outputs[sub.staking.outputIndex], [])),
          (_: nat) => LostAnswers(sub), Fallible((_: nat) => false, unique))
  }

  lemma LostDecision(txid: TxBody -> Hash, unique: bool, sub: Submission, e: Entry)
    requires Indexable(sub) && !ChecksOwnInput(sub) && e.sub == sub
    ensures Decide(LostWorld(txid, unique, sub), e, LostAnswers(sub)).verdict == SendOk
  {
    var w, a := LostWorld(txid, unique, sub), LostAnswers(sub);
    var params, built := SystemParams([SOME_KEY], 1, []), Built(sub.staking.tx.outputs[sub.staking.outputIndex], []);
    assert Prepare(w, sub, a) == Ok((params, built));
    var r := RoundFor(w, sub.body, a, params, built);
    var msgs := Msgs(r, a.arrivals(1));
    assert msgs[0].result == Some(Pair(SOME_KEY, SOME_SIG)) by {
      assert Judge(r, 0) == Some(Pair(SOME_KEY, SOME_SIG));
    }
    assert msgs[..0] == [];
    assert Pairs(msgs) == [Pair(SOME_KEY, SOME_SIG)];
    assert Collected(w, sub.body, a, params, built).Some?;
  }

  lemma LostRun(txid: TxBody -> Hash, unique: bool, sub: Submission, s: Sys)
    requires Indexable(sub) && !ChecksOwnInput(sub)
    requires |s.queue| == 1 && s.queue[0].sub == sub && s.queue[0].state == Inserted
    ensures var s' := Perform(LostWorld(txid, unique, sub), s, RunNew(true));
      && |s'.queue| == 1 && s'.queue[0].sub == sub && s'.queue[0].state == Inserted
      && SendsOf(s'.history, sub.body) == SendsOf(s.history, sub.body) + 1
  {
    var w := LostWorld(txid, unique, sub);
    assert s.queue[..0] == [];
    assert Fetch(s.queue, Inserted) == [0];
    LostDecision(txid, unique, sub, s.queue[0]);
    StepLaw(w, s, 0);
    var s' := Step(w, s, 0).s;
    assert s'.history[..|s'.history| - 1] == s.history;
  }

  lemma LostTwice(txid: TxBody -> Hash, unique: bool, sub: Submission) returns (ops: seq<Op>)
    requires Indexable(sub) && !ChecksOwnInput(sub)
    ensures var s := Execute(LostWorld(txid, unique, sub), EMPTY_SYS, ops);
      |s.queue| == 1 && s.queue[0].sub == sub && SendsOf(s.history, sub.body) == 2
  {
    var w := LostWorld(txid, unique, sub);
    ExecuteSnoc(w, EMPTY_SYS, [], AddTx(sub));
    var ops1 := [] + [AddTx(sub)];
    LostRun(txid, unique, sub, Execute(w, EMPTY_SYS, ops1));
    ExecuteSnoc(w, EMPTY_SYS, ops1, RunNew(true));
    var ops2 := ops1 + [RunNew(true)];
    LostRun(txid, unique, sub, Execute(w, EMPTY_SYS, ops2));
    ExecuteSnoc(w, EMPTY_SYS, ops2, RunNew(true));
    ops := ops2 + [RunNew(true)];
  }

  lemma LostWorldIsHonest(txid: TxBody -> Hash, unique: bool, sub: Submission, ops: seq<Op>)
    requires Indexable(sub)
    requires var s := Execute(LostWorld(txid, unique, sub), EMPTY_SYS, ops); |s.queue| == 1 && s.queue[0].sub == sub
    ensures HonestChain(LostWorld(txid, unique, sub), Execute(LostWorld(txid, unique, sub), EMPTY_SYS, ops).history)
  {
    var w := LostWorld(txid, unique, sub);
    var s := Execute(w, EMPTY_SYS, ops);
    ExecuteChronicle(w, ops);
    forall t0, t | 0 <= t0 < t < |s.history| && s.history[t0].verdict == SendOk
      ensures ReportsSpent(w.answers(t), s.history[t0].sub.body)
    {
      assert Recounts(w, s.queue, s.history[t0], t0);
    }
  }

  lemma TwiceIsTooOften(w: World, s: Sys, sub: Submission)
    requires HonestChain(w, s.history) && |s.queue| == 1 && s.queue[0].sub == sub
    requires SendsOf(s.history, sub.body) == 2
    ensures !SentOnceAtMost(w, s, sub)
  {
  }

  lemma LostRunSendsTwice(txid: TxBody -> Hash, unique: bool, sub: Submission) returns (ops: seq<Op>)
    requires Indexable(sub) && !ChecksOwnInput(sub)
    ensures !SentOnceAtMost(LostWorld(txid, unique, sub), Execute(LostWorld(txid, unique, sub), EMPTY_SYS, ops), sub)
  {
    ops := LostTwice(txid, unique, sub);
    LostWorldIsHonest(txid, unique, sub, ops);
    TwiceIsTooOften(LostWorld(txid, unique, sub), Execute(LostWorld(txid, unique, sub), EMPTY_SYS, ops), sub);
  }

  lemma SameChecks(q: Queue, sub: Submission)
    requires SubmittedAs(q, sub) && ChecksOwnInput(sub)
    ensures AllCheckOwnInput(q, sub.body)
  {
  }

  lemma OwnInputSentOnce(w: World, ops: seq<Op>, sub: Submission)
    requires ChecksOwnInput(sub)
    ensures SentOnceAtMost(w, Execute(w, EMPTY_SYS, ops), sub)
  {
    var s := Execute(w, EMPTY_SYS, ops);
    if HonestChain(w, s.history) && SubmittedAs(s.queue, sub) {
      SameChecks(s.queue, sub);
      AtMostOnceDespiteLostWrites(w, ops, sub.body);
    }
  }

  /**
   Exactly when lost writes are harmless, whatever the hash function and whether or not the store refuses
   known hashes: a transaction can be sent successfully twice over an honest chain if and only if its
   spendability check asks for an output it does not spend itself.
   */
  lemma LostWritesHarmlessIff(txid: TxBody -> Hash, unique: bool, sub: Submission)
    ensures NeverSentTwice(txid, unique, sub)
            <==> (Indexable(sub) ==> OutPoint(sub.body.inputs[0].hash, sub.staking.outputIndex % TWO_TO_32) in sub.body.inputs)
  {
    if ChecksOwnInput(sub) {
      forall w: World, ops: seq<Op>
        ensures SentOnceAtMost(w, Execute(w, EMPTY_SYS, ops), sub)
      {
        OwnInputSentOnce(w, ops, sub);
      }
    } else {
      var ops := LostRunSendsTwice(txid, unique, sub);
      assert !SentOnceAtMost(LostWorld(txid, unique, sub), Execute(LostWorld(txid, unique, sub), EMPTY_SYS, ops), sub);
    }
  }
}
