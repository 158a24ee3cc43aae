/**
 The unbonding pipeline as a function of its environment: the queue of unbonding transactions, the
 decision taken for one transaction, batches with critical exits and the two kinds of run
 (internal/services/unbonding_pipeline.go). Everything the pipeline asks of the outside world during
 its t-th attempt is `answers(t)`; what holds for every `answers` holds for every environment.
 */
module PipelineModel {
  import opened Bytes
  import opened Integers
  import opened Types
  import opened Wrappers
  import opened WitnessGen
  import opened CovenantScript
  import opened Collection

  datatype DocState = Inserted | Send | InputAlreadySpent | Failed | FailedToGetCovenantSignatures

  /** What is handed to the store for one unbonding transaction. */
  datatype Submission = Submission(
    body: TxBody,
    attached: Witness,
    sig: Signature,
    info: StakingInfo,
    staking: StakingTxData)

  /** A stored transaction with the witness it carries now and its state. */
  datatype Entry = Entry(sub: Submission, wit: Witness, state: DocState)

  type Queue = seq<Entry>

  /** The order in which a committee of each size delivers its results. */
  type Arrivals = f: nat -> seq<nat> | forall n: nat :: ArrivalOrder(f(n), n) witness InOrder

  function InOrder(n: nat): (order: seq<nat>)
    ensures ArrivalOrder(order, n)
  {
    seq(n, i => i)
  }

  datatype Answers = Answers(
    adds: seq<Submission>,                        // transactions added by others meanwhile
    height: Option<nat>,                          // inclusion height of the staking transaction
    paramsAt: nat -> Option<SystemParams>,        // parameters by height
    replies: nat -> Reply,                        // the signer, by committee position
    arrivals: Arrivals,                           // scheduling of the signing workers
    witnessOk: bool,                              // the library builds the full witness
    spendable: (Hash, nat) -> Option<bool>,       // CheckTxOutSpendable; None is an error
    sendOk: bool)                                 // SendTx succeeds

  /** The rebuilt staking output and the script of its unbonding path. */
  datatype Built = Built(output: TxOut, script: bytes)

  /** The in-memory store never fails to write and refuses a hash it has; a database may lose writes,
      leaving the record unchanged, and refuses a known hash only if it keeps a unique index. */
  datatype StoreKind = InMemory | Fallible(writeOk: nat -> bool, unique: bool)

  datatype World = World(
    txid: TxBody -> Hash,
    verify: (XOnly, Signature, Message) -> bool,
    build: (StakingInfo, SystemParams) -> Option<Built>,
    answers: nat -> Answers,
    store: StoreKind)

  predicate WriteOk(w: World, t: nat) {
    match w.store
    case InMemory => true
    case Fallible(writeOk, _) => writeOk(t)
  }

  predicate RefusesKnown(w: World) {
    w.store.InMemory? || w.store.unique
  }

  // ---------- the queue ----------

  predicate Known(txid: TxBody -> Hash, q: Queue, hash: Hash) {
    exists i :: 0 <= i < |q| && txid(q[i].sub.body) == hash
  }

  function NewEntry(sub: Submission): Entry {
    Entry(sub, sub.attached, Inserted)
  }

  /** The queue after a transaction was handed to the store: one whose hash is already there changes
      nothing if the store refuses such, and any other is appended. */
  function Accept(w: World, q: Queue, sub: Submission): Queue {
    if RefusesKnown(w) && Known(w.txid, q, w.txid(sub.body)) then q else q + [NewEntry(sub)]
  }

  function AddAll(w: World, q: Queue, subs: seq<Submission>): (q': Queue)
    ensures |q| <= |q'| && q'[..|q|] == q
    ensures forall i :: |q| <= i < |q'| ==> q'[i].state == Inserted
    decreases |subs|
  {
    if subs == [] then q else AddAll(w, Accept(w, q, subs[0]), subs[1..])
  }

  /** The positions of the entries in a given state, in order of insertion. */
  function Fetch(q: Queue, st: DocState): (idxs: seq<nat>)
    ensures forall k :: 0 <= k < |idxs| ==> idxs[k] < |q|
  {
    if q == [] then []
    else
      var n := |q| - 1;
      Fetch(q[..n], st) + (if q[n].state == st then [n] else [])
  }

  // ---------- one transaction ----------

  datatype Why = Malformed | TxNotFound | NoParams | CannotRebuild | OutputMismatch | WitnessError

  datatype Verdict = Critical(why: Why) | NoQuorum | AlreadySpent | SendFailed | SendOk

  datatype Decision = Decision(verdict: Verdict, wit: Witness)

  predicate OutputsAreEqual(a: TxOut, b: TxOut) {
    a.value == b.value && a.script == b.script
  }

  /** The code indexes the staking output and the first input; otherwise it panics. */
  predicate WellFormed(sub: Submission) {
    sub.staking.outputIndex < |sub.staking.tx.outputs| && sub.body.inputs != []
  }

  function StakingOutput(sub: Submission): TxOut
    requires WellFormed(sub)
  {
    sub.staking.tx.outputs[sub.staking.outputIndex]
  }

  /** The checks before signing: parameters by height and a rebuilt output equal to the stored one. */
  function Prepare(w: World, sub: Submission, a: Answers): Result<(SystemParams, Built), Why> {
    if !WellFormed(sub) then Err(Malformed)
    else if a.height.None? then Err(TxNotFound)
    else
      var params := a.paramsAt(a.height.value);
      if params.None? then Err(NoParams)
      else
        var built := w.build(sub.info, params.value);
        if built.None? then Err(CannotRebuild)
        else if !OutputsAreEqual(built.value.output, StakingOutput(sub)) then Err(OutputMismatch)
        else Ok((params.value, built.value))
  }

  function VerifierFor(w: World, body: TxBody, built: Built): Verifier {
    (x: XOnly, sig: Signature) => w.verify(x, sig, Message(body, built.output, built.script))
  }

  function RoundFor(w: World, body: TxBody, a: Answers, params: SystemParams, built: Built): Round {
    Round(params.keys, VerifierFor(w, body, built), a.replies)
  }

  function Collected(w: World, body: TxBody, a: Answers, params: SystemParams, built: Built): Option<seq<Pair>> {
    var order := a.arrivals(|params.keys|);
    Quorum(Pairs(Msgs(RoundFor(w, body, a, params, built), order)), params.quorum)
  }

  /** The output the spendability check asks for: the first input's transaction, and the staking
      output index cut to 32 bits. */
  function CheckedOutPoint(sub: Submission): OutPoint
    requires WellFormed(sub)
  {
    OutPoint(sub.body.inputs[0].hash, sub.staking.outputIndex % TWO_TO_32)
  }

  function BroadcastVerdict(a: Answers, out: OutPoint): Verdict {
    if a.spendable(out.hash, out.index) == Some(false) then AlreadySpent
    else if a.sendOk then SendOk
    else SendFailed
  }

  function Decide(w: World, e: Entry, a: Answers): Decision {
    var sub := e.sub;
    match Prepare(w, sub, a)
    case Err(why) => Decision(Critical(why), e.wit)
    case Ok((params, built)) =>
      match Collected(w, sub.body, a, params, built)
      case None => Decision(NoQuorum, e.wit)
      case Some(sigs) =>
        if !a.witnessOk then Decision(Critical(WitnessError), e.wit)
        else
          var wit := Witness(WitnessSlots(params.keys, sigs), sub.sig);
          var out := CheckedOutPoint(sub);
          Decision(BroadcastVerdict(a, out), wit)
  }

  /** The state a verdict is recorded as. */
  function Target(v: Verdict): DocState
    requires !v.Critical?
  {
    match v
    case NoQuorum => FailedToGetCovenantSignatures
    case AlreadySpent => InputAlreadySpent
    case SendFailed => Failed
    case SendOk => DocState.Send
  }

  // ---------- the system ----------

  /** One attempt: whom it was for, how it ended, and whether the new state was stored. */
  datatype Event = Event(who: nat, sub: Submission, verdict: Verdict, wit: Witness, written: bool)

  datatype Metrics = Metrics(signOk: nat, signFailed: nat, sent: nat, sendFailed: nat, noQuorum: nat)

  datatype Sys = Sys(queue: Queue, history: seq<Event>, metrics: Metrics)

  const EMPTY_SYS := Sys([], [], Metrics(0, 0, 0, 0, 0))

  datatype Outcome = Finished | StoppedAt(why: Why) | StoreWriteFailed | StoreReadFailed

  datatype Res = Res(s: Sys, outcome: Outcome)

  /** The counters after that many requests with and without a verifying signature. */
  function Signed(m: Metrics, good: nat, bad: nat): Metrics {
    m.(signOk := m.signOk + good, signFailed := m.signFailed + bad)
  }

  function CountSigning(w: World, m: Metrics, sub: Submission, a: Answers): Metrics {
    match Prepare(w, sub, a)
    case Err(_) => m
    case Ok((params, built)) =>
      var good := |GoodWorkers(RoundFor(w, sub.body, a, params, built))|;
      Signed(m, good, |params.keys| - good)
  }

  function CountVerdict(m: Metrics, v: Verdict, written: bool): Metrics {
    match v
    case Critical(_) => m
    case NoQuorum => m.(noQuorum := m.noQuorum + 1)
    case AlreadySpent => m
    case SendFailed => if written then m.(sendFailed := m.sendFailed + 1) else m
    case SendOk => if written then m.(sent := m.sent + 1) else m
  }

  /** One iteration of the batch loop, for the entry at position `i`. */
  function Step(w: World, s: Sys, i: nat): Res
    requires i < |s.queue|
  {
    var t := |s.history|;
    var a := w.answers(t);
    var q := AddAll(w, s.queue, a.adds);
    var e := q[i];
    var d := Decide(w, e, a);
    var written := !d.verdict.Critical? && WriteOk(w, t);
    var e' := Entry(e.sub, d.wit, if written then Target(d.verdict) else e.state);
    var s' := Sys(
      q[i := e'],
      s.history + [Event(i, e.sub, d.verdict, d.wit, written)],
      CountVerdict(CountSigning(w, s.metrics, e.sub, a), d.verdict, written));
    Res(s', if d.verdict.Critical? then StoppedAt(d.verdict.why) else if written then Finished else StoreWriteFailed)
  }

  predicate InRange(idxs: seq<nat>, n: nat) {
    forall k :: 0 <= k < |idxs| ==> idxs[k] < n
  }

  /** The batch loop; the first attempt that does not finish ends it. */
  function Batch(w: World, s: Sys, idxs: seq<nat>): Res
    requires InRange(idxs, |s.queue|)
    decreases |idxs|
  {
    if idxs == [] then Res(s, Finished)
    else
      var r := Step(w, s, idxs[0]);
      if r.outcome.Finished? then Batch(w, r.s, idxs[1..]) else r
  }

  function ProcessNew(w: World, s: Sys, fetched: bool): Res {
    if !fetched then Res(s, StoreReadFailed) else Batch(w, s, Fetch(s.queue, Inserted))
  }

  /** First the transactions without quorum, then what is in `Failed` after that. */
  function ProcessFailed(w: World, s: Sys, fetchedNoQuorum: bool, fetchedFailed: bool): Res {
    if !fetchedNoQuorum then Res(s, StoreReadFailed)
    else
      var first := Batch(w, s, Fetch(s.queue, FailedToGetCovenantSignatures));
      if !first.outcome.Finished? then first
      else if !fetchedFailed then Res(first.s, StoreReadFailed)
      else Batch(w, first.s, Fetch(first.s.queue, Failed))
  }

  // ---------- arbitrary sequences of operations ----------

  datatype Op = AddTx(sub: Submission) | RunNew(fetched: bool) | RunFailed(fetchedNoQuorum: bool, fetchedFailed: bool)

  function Perform(w: World, s: Sys, op: Op): Sys {
    match op
    case AddTx(sub) => s.(queue := Accept(w, s.queue, sub))
    case RunNew(fetched) => ProcessNew(w, s, fetched).s
    case RunFailed(f1, f2) => ProcessFailed(w, s, f1, f2).s
  }

  function Execute(w: World, s: Sys, ops: seq<Op>): Sys {
    if ops == [] then s else Perform(w, Execute(w, s, ops[..|ops| - 1]), ops[|ops| - 1])
  }
}
