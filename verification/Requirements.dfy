/**
 What an attempt has to establish, in terms of the transaction and of the questions put to the outside
 world alone. The pipeline is measured against this module and uses nothing of it.
 */
module Requirements {
  import opened Bytes
  import opened Types
  import opened Wrappers
  import opened WitnessGen
  import opened CovenantScript
  import opened Collection
  import opened PipelineModel
  import SetFacts

  predicate SendCalled(v: Verdict) {
    v == SendOk || v == SendFailed
  }

  /** The parameters in force at the inclusion height of the staking transaction. */
  function ParamsInForce(a: Answers): Option<SystemParams> {
    if a.height.None? then None else a.paramsAt(a.height.value)
  }

  /** The staking output and the first input are there to be looked at. */
  predicate Indexable(sub: Submission) {
    sub.staking.outputIndex < |sub.staking.tx.outputs| && |sub.body.inputs| > 0
  }

  /** The output rebuilt under the parameters in force is the stored staking output. */
  predicate ChecksPass(w: World, a: Answers, sub: Submission) {
    && Indexable(sub)
    && ParamsInForce(a).Some?
    && w.build(sub.info, ParamsInForce(a).value).Some?
    && w.build(sub.info, ParamsInForce(a).value).value.output == sub.staking.tx.outputs[sub.staking.outputIndex]
  }

  function BuiltFor(w: World, a: Answers, sub: Submission): Built
    requires ParamsInForce(a).Some? && w.build(sub.info, ParamsInForce(a).value).Some?
  {
    w.build(sub.info, ParamsInForce(a).value).value
  }

  /** Why the checks before signing fail. */
  ghost predicate FirstMissing(w: World, a: Answers, sub: Submission, why: Why) {
    match why
    case Malformed => |sub.staking.tx.outputs| <= sub.staking.outputIndex || sub.body.inputs == []
    case TxNotFound => Indexable(sub) && a.height == None
    case NoParams => Indexable(sub) && a.height.Some? && a.paramsAt(a.height.value) == None
    case CannotRebuild => Indexable(sub) && ParamsInForce(a).Some? && w.build(sub.info, ParamsInForce(a).value) == None
    case OutputMismatch =>
      && Indexable(sub) && ParamsInForce(a).Some? && w.build(sub.info, ParamsInForce(a).value).Some?
      && BuiltFor(w, a, sub).output != sub.staking.tx.outputs[sub.staking.outputIndex]
    case WitnessError => false
  }

  /** What covenant members sign: the transaction, spending the rebuilt output by its unbonding path. */
  function ToSign(w: World, a: Answers, sub: Submission): Message
    requires ChecksPass(w, a, sub)
  {
    Message(sub.body, BuiltFor(w, a, sub).output, BuiltFor(w, a, sub).script)
  }

  function Committee(w: World, a: Answers, sub: Submission): seq<PubKey>
    requires ChecksPass(w, a, sub)
  {
    ParamsInForce(a).value.keys
  }

  /** The positions whose reply carries a signature of `m` that verifies under the key at that position. */
  function Verifying(w: World, keys: seq<PubKey>, m: Message, replies: nat -> Reply): (good: set<nat>)
    ensures |good| <= |keys|
  {
    var good := set i: nat | i < |keys| && replies(i).Some? && w.verify(keys[i].x, replies(i).value.sig, m);
    SetFacts.SubsetSize(good, SetFacts.UpTo(|keys|));
    good
  }

  /** The committee positions that return a signature verifying under the key they were asked for. */
  function Signers(w: World, a: Answers, sub: Submission): (signers: set<nat>)
    requires ChecksPass(w, a, sub)
    ensures |signers| <= |Committee(w, a, sub)|
  {
    Verifying(w, Committee(w, a, sub), ToSign(w, a, sub), a.replies)
  }

  predicate QuorumSigns(w: World, a: Answers, sub: Submission)
    requires ChecksPass(w, a, sub)
  {
    |Signers(w, a, sub)| >= ParamsInForce(a).value.quorum
  }

  /** The attempt gets as far as a new witness, and so to the spendability check. */
  predicate Signable(w: World, a: Answers, sub: Submission) {
    ChecksPass(w, a, sub) && QuorumSigns(w, a, sub) && a.witnessOk
  }

  /** The chain answers that the staking output of the transaction, its index cut to 32 bits, is spent. */
  predicate FoundSpent(a: Answers, sub: Submission)
    requires sub.body.inputs != []
  {
    a.spendable(sub.body.inputs[0].hash, sub.staking.outputIndex % 0x1_0000_0000) == Some(false)
  }

  /** The store takes the write of the t-th attempt. */
  predicate WriteTaken(w: World, t: nat) {
    w.store.Fallible? ==> w.store.writeOk(t)
  }

  /** The store refuses a transaction whose hash it has. */
  predicate NoDuplicates(w: World) {
    w.store.Fallible? ==> w.store.unique
  }

  ghost predicate ProperCommittee(params: SystemParams) {
    params.keys != [] && DistinctXOnly(params.keys)
  }

  /**
   The signer's part: for a quorum of one or more, every verifying answer names a committee member under
   whose own key its signature verifies; for two or more, no two of them name the same.
   */
  ghost predicate CredibleSigners(w: World, a: Answers, sub: Submission)
    requires ChecksPass(w, a, sub)
  {
    var signers, m, quorum := Signers(w, a, sub), ToSign(w, a, sub), ParamsInForce(a).value.quorum;
    && (quorum >= 1 ==> forall i :: i in signers ==> OwnSignature(w, Committee(w, a, sub), m, a.replies(i)))
    && (quorum >= 2 ==> forall i, j :: i in signers && j in signers && i < j ==> DifferentNames(a.replies(i), a.replies(j)))
  }

  predicate OwnSignature(w: World, keys: seq<PubKey>, m: Message, reply: Reply) {
    && reply.Some?
    && (exists j :: 0 <= j < |keys| && keys[j].x == reply.value.key.x)
    && w.verify(reply.value.key.x, reply.value.sig, m)
  }

  predicate DifferentNames(reply: Reply, reply': Reply) {
    reply.Some? && reply'.Some? ==> reply.value.key.x != reply'.value.key.x
  }

  function ScriptVerifier(w: World, m: Message): Verifier {
    (x: XOnly, sig: Signature) => w.verify(x, sig, m)
  }

  /**
   The covenant slots of the witness: one per committee key in witness order, exactly `quorum` of them
   filled, each filled one verifying under its own key, and together accepted by the covenant script.
   */
  ghost predicate FullyWitnessed(w: World, a: Answers, sub: Submission, covenant: seq<Option<Signature>>)
    requires ChecksPass(w, a, sub)
  {
    var sorted := SortForWitness(Committee(w, a, sub));
    && |covenant| == |sorted| == |Committee(w, a, sub)|
    && (forall i :: 0 <= i < |sorted| && covenant[i].Some? ==> w.verify(sorted[i].x, covenant[i].value, ToSign(w, a, sub)))
    && Filled(covenant) == ParamsInForce(a).value.quorum
    && Accepts(ScriptVerifier(w, ToSign(w, a, sub)), CovenantScriptOf(ParamsInForce(a).value), StackOf(covenant))
  }

  /**
   Where the covenant slots come from, whatever the signer does: the answers of the first quorum many
   signers in order of arrival are kept, and a slot holds the signature of the last of them that names its
   key, or nothing if none does.
   */
  ghost predicate FilledFromAnswers(w: World, a: Answers, sub: Submission, covenant: seq<Option<Signature>>)
    requires ChecksPass(w, a, sub)
  {
    var keys := Committee(w, a, sub);
    exists at, kept: seq<Pair> ::
      && |kept| == ParamsInForce(a).value.quorum
      && Earliest(a.replies, Signers(w, a, sub), a.arrivals(|keys|), at, kept)
      && SlotsHold(SortForWitness(keys), kept, covenant)
  }

  ghost predicate SlotsHold(sorted: seq<PubKey>, kept: seq<Pair>, covenant: seq<Option<Signature>>) {
    && |covenant| == |sorted|
    && forall i :: 0 <= i < |sorted| ==> SlotHolds(sorted[i].x, kept, covenant[i])
  }

  ghost predicate SlotHolds(x: XOnly, kept: seq<Pair>, slot: Option<Signature>) {
    match slot
    case None => forall k :: 0 <= k < |kept| ==> kept[k].key.x != x
    case Some(sig) => exists k: nat :: LastNamed(kept, x, k) && kept[k].sig == sig
  }

  /** What has been established before a transaction is sent. */
  ghost predicate Gate(w: World, a: Answers, sub: Submission, wit: Witness) {
    && ChecksPass(w, a, sub) && QuorumSigns(w, a, sub) && !FoundSpent(a, sub)
    && wit.Witness? && wit.staker == sub.sig
    && FilledFromAnswers(w, a, sub, wit.covenant)
    && (ProperCommittee(ParamsInForce(a).value) && CredibleSigners(w, a, sub) ==> FullyWitnessed(w, a, sub, wit.covenant))
  }
}
