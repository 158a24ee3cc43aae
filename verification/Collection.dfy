/**
 Concurrent collection of covenant signatures (`signUnbondingTransaction` and
 `requestSigFromCovenant` in internal/services/unbonding_pipeline.go) as a step relation: one worker
 per covenant key, a channel buffered to the number of keys, and one collector.
 */
module Collection {
  import opened Bytes
  import opened Types
  import opened Wrappers
  import opened WitnessGen
  import opened CovenantScript
  import opened SetFacts

  /** What the signer answered a request with; `None` is an error. */
  type Reply = Option<Pair>

  /** One round: the committee, signature verification for the transaction at hand, the answers. */
  datatype Round = Round(keys: seq<PubKey>, verify: Verifier, replies: nat -> Reply)

  /** The result a worker sends: the pair as the signer returned it, if its signature verifies
      under the key that was asked. */
  function Judge(r: Round, i: nat): Option<Pair>
    requires i < |r.keys|
  {
    match r.replies(i)
    case None => None
    case Some(pair) => if r.verify(r.keys[i].x, pair.sig) then Some(pair) else None
  }

  /** The signer answers each request with a pair for the requested key. */
  ghost predicate Paired(r: Round) {
    forall i :: 0 <= i < |r.keys| && r.replies(i).Some? ==> r.replies(i).value.key == r.keys[i]
  }

  /** Request `i` is answered with a signature that verifies under the key that was asked. */
  predicate Verified(r: Round, i: nat)
    requires i < |r.keys|
  {
    r.replies(i).Some? && r.verify(r.keys[i].x, r.replies(i).value.sig)
  }

  /** A result is the answer itself if it verifies, and otherwise a failure. */
  lemma JudgeMeaning(r: Round, i: nat, result: Option<Pair>)
    requires i < |r.keys|
    ensures Judge(r, i) == result <==> if Verified(r, i) then result == r.replies(i) else result == None
  {
  }

  /** Every verified answer names a committee member under whose own key its signature verifies. */
  ghost predicate AllVouched(r: Round) {
    forall i :: 0 <= i < |r.keys| && Verified(r, i) ==> Vouched(r.verify, r.keys, r.replies(i).value)
  }

  /** No two verified answers name the same x-only key. */
  ghost predicate NoneShared(r: Round) {
    forall i, j :: 0 <= i < j < |r.keys| && Verified(r, i) && Verified(r, j) ==>
      r.replies(i).value.key.x != r.replies(j).value.key.x
  }

  /** What the answers must be like for a quorum of that size: nothing for none, all vouched for, and
      for two or more also of different keys. */
  ghost predicate Credible(r: Round, quorum: nat) {
    (quorum >= 1 ==> AllVouched(r)) && (quorum >= 2 ==> NoneShared(r))
  }

  datatype Worker = NotStarted | Calling | Sending(result: Option<Pair>) | Done

  datatype Msg = Msg(worker: nat, result: Option<Pair>)

  datatype State = State(
    workers: seq<Worker>,
    spawned: nat,
    channel: seq<Msg>,
    received: seq<Msg>,
    successes: nat,
    failures: nat)

  datatype Action = Spawn | Answer(i: nat) | Send(i: nat) | Receive

  function Init(r: Round): State {
    State(seq(|r.keys|, _ => NotStarted), 0, [], [], 0, 0)
  }

  /** The channel accepts a message only while it holds fewer than one per covenant key; the
      collector starts once all workers are started and takes one message per covenant key. */
  predicate Enabled(r: Round, s: State, a: Action) {
    match a
    case Spawn => s.spawned < |s.workers|
    case Answer(i) => i < |s.workers| == |r.keys| && s.workers[i].Calling?
    case Send(i) => i < |s.workers| && s.workers[i].Sending? && |s.channel| < |r.keys|
    case Receive => s.spawned == |r.keys| && s.channel != [] && |s.received| < |r.keys|
  }

  function Apply(r: Round, s: State, a: Action): State
    requires Enabled(r, s, a)
  {
    match a
    case Spawn => s.(workers := s.workers[s.spawned := Calling], spawned := s.spawned + 1)
    case Answer(i) =>
      var result := Judge(r, i);
      var s' := s.(workers := s.workers[i := Sending(result)]);
      if result.Some? then s'.(successes := s.successes + 1) else s'.(failures := s.failures + 1)
    case Send(i) =>
      s.(workers := s.workers[i := Done], channel := s.channel + [Msg(i, s.workers[i].result)])
    case Receive => s.(channel := s.channel[1..], received := s.received + [s.channel[0]])
  }

  /** The state a schedule leads to, if every action of it is enabled when its turn comes. */
  function Run(r: Round, schedule: seq<Action>): Option<State> {
    if schedule == [] then Some(Init(r))
    else
      var before := Run(r, schedule[..|schedule| - 1]);
      var a := schedule[|schedule| - 1];
      if before.None? || !Enabled(r, before.value, a) then None else Some(Apply(r, before.value, a))
  }

  predicate Complete(r: Round, s: State) {
    |s.received| == |r.keys|
  }

  ghost predicate Finishes(r: Round, schedule: seq<Action>) {
    Run(r, schedule).Some? && Complete(r, Run(r, schedule).value)
  }

  /** All messages sent so far, in the order of sending. */
  function Traffic(s: State): seq<Msg> {
    s.received + s.channel
  }

  function DoneWorkers(s: State): set<nat> {
    set i: nat | i < |s.workers| && s.workers[i].Done?
  }

  function PendingWorkers(s: State): set<nat> {
    set i: nat | i < |s.workers| && !s.workers[i].Done?
  }

  function AnsweredWorkers(s: State): set<nat> {
    set i: nat | i < |s.workers| && (s.workers[i].Sending? || s.workers[i].Done?)
  }

  /** The workers whose request returns a verifying signature, whatever the schedule. */
  function GoodWorkers(r: Round): (good: set<nat>)
    ensures |good| <= |r.keys|
  {
    var good := set i: nat | i < |r.keys| && Verified(r, i);
    SubsetSize(good, UpTo(|r.keys|));
    good
  }

  ghost predicate NoRepeats(msgs: seq<Msg>) {
    forall j, k :: 0 <= j < k < |msgs| ==> msgs[j].worker != msgs[k].worker
  }

  function Senders(msgs: seq<Msg>): set<nat> {
    set k | 0 <= k < |msgs| :: msgs[k].worker
  }

  /** The collector's slice: the pairs of the successful results, in order of arrival. */
  function Pairs(msgs: seq<Msg>): seq<Pair> {
    if msgs == [] then []
    else
      var last := msgs[|msgs| - 1].result;
      Pairs(msgs[..|msgs| - 1]) + (if last.Some? then [last.value] else [])
  }

  /** The outcome of a round: too few signatures, or the first `quorum` of them. */
  function Quorum(pairs: seq<Pair>, quorum: nat): Option<seq<Pair>> {
    if |pairs| < quorum then None else Some(pairs[..quorum])
  }

  ghost predicate Inv(r: Round, s: State) {
    WorkersInv(r, s) && MessagesInv(r, s) && CountersInv(r, s)
  }

  ghost predicate WorkersInv(r: Round, s: State) {
    var n := |r.keys|;
    && |s.workers| == n
    && s.spawned <= n
    && (forall i :: 0 <= i < n ==> (s.workers[i].NotStarted? <==> s.spawned <= i))
    && (forall i :: 0 <= i < n && s.workers[i].Sending? ==> s.workers[i].result == Judge(r, i))
    && (s.received != [] ==> s.spawned == n)
  }

  ghost predicate CountersInv(r: Round, s: State) {
    && s.successes == |AnsweredWorkers(s) * GoodWorkers(r)|
    && s.failures == |AnsweredWorkers(s) - GoodWorkers(r)|
  }

  ghost predicate MessagesInv(r: Round, s: State) {
    && NoRepeats(Traffic(s))
    && Senders(Traffic(s)) == DoneWorkers(s)
    && Truthful(r, Traffic(s))
  }

  /** Every message carries the judged answer of one of the workers. */
  ghost predicate Truthful(r: Round, msgs: seq<Msg>) {
    forall k :: 0 <= k < |msgs| ==> TruthfulMsg(r, msgs[k])
  }

  ghost predicate TruthfulMsg(r: Round, msg: Msg) {
    msg.worker < |r.keys| && msg.result == Judge(r, msg.worker)
  }

  lemma SendersAppend(msgs: seq<Msg>, msg: Msg)
    ensures Senders(msgs + [msg]) == Senders(msgs) + {msg.worker}
  {
    var all := msgs + [msg];
    forall w | w in Senders(msgs) + {msg.worker}
      ensures w in Senders(all)
    {
      if w in Senders(msgs) {
        var k :| 0 <= k < |msgs| && msgs[k].worker == w;
        assert all[k].worker == w;
      } else {
        assert all[|msgs|].worker == w;
      }
    }
  }

  lemma {:induction false} SendersCount(msgs: seq<Msg>)
    requires NoRepeats(msgs)
    ensures |Senders(msgs)| == |msgs|
  {
    if msgs != [] {
      var init, last := msgs[..|msgs| - 1], msgs[|msgs| - 1];
      SendersCount(init);
      SendersAppend(init, last);
      assert msgs == init + [last];
      assert last.worker !in Senders(init);
    }
  }

  /** Workers still to send, messages in the channel and messages received always add up to n. */
  lemma Conservation(r: Round, s: State)
    requires Inv(r, s)
    ensures |PendingWorkers(s)| + |s.channel| + |s.received| == |r.keys|
    ensures |DoneWorkers(s)| == |s.channel| + |s.received|
  {
    SendersCount(Traffic(s));
    assert PendingWorkers(s) + DoneWorkers(s) == UpTo(|r.keys|);
    assert PendingWorkers(s) !! DoneWorkers(s);
  }

  lemma InitInv(r: Round)
    ensures Inv(r, Init(r))
  {
    assert AnsweredWorkers(Init(r)) == {} && DoneWorkers(Init(r)) == {};
  }

  lemma AnsweredSet(s: State, s': State, i: nat)
    requires i < |s.workers| && s.workers[i].Calling?
    requires |s'.workers| == |s.workers| && s'.workers[i].Sending?
    requires s'.workers == s.workers[i := s'.workers[i]]
    ensures AnsweredWorkers(s') == AnsweredWorkers(s) + {i} && i !in AnsweredWorkers(s)
    ensures DoneWorkers(s') == DoneWorkers(s)
  {
  }

  lemma CountAnswer(r: Round, s: State, s': State, i: nat)
    requires i < |r.keys| && CountersInv(r, s)
    requires AnsweredWorkers(s') == AnsweredWorkers(s) + {i} && i !in AnsweredWorkers(s)
    requires s'.successes == s.successes + (if Judge(r, i).Some? then 1 else 0)
    requires s'.failures == s.failures + (if Judge(r, i).Some? then 0 else 1)
    ensures CountersInv(r, s') && |AnsweredWorkers(s')| == |AnsweredWorkers(s)| + 1
  {
    AddMember(AnsweredWorkers(s), i, GoodWorkers(r));
    assert i in GoodWorkers(r) <==> Judge(r, i).Some?;
  }

  lemma AnswerCounters(r: Round, s: State, i: nat)
    requires WorkersInv(r, s) && CountersInv(r, s) && Enabled(r, s, Answer(i))
    ensures CountersInv(r, Apply(r, s, Answer(i)))
    ensures |AnsweredWorkers(Apply(r, s, Answer(i)))| == |AnsweredWorkers(s)| + 1
    ensures DoneWorkers(Apply(r, s, Answer(i))) == DoneWorkers(s)
  {
    AnsweredSet(s, Apply(r, s, Answer(i)), i);
    CountAnswer(r, s, Apply(r, s, Answer(i)), i);
  }

  lemma AnswerInv(r: Round, s: State, i: nat)
    requires Inv(r, s) && Enabled(r, s, Answer(i))
    ensures Inv(r, Apply(r, s, Answer(i)))
    ensures |AnsweredWorkers(Apply(r, s, Answer(i)))| == |AnsweredWorkers(s)| + 1
    ensures DoneWorkers(Apply(r, s, Answer(i))) == DoneWorkers(s)
  {
    AnswerCounters(r, s, i);
  }

  lemma SentSet(s: State, s': State, i: nat)
    requires i < |s.workers| && s.workers[i].Sending?
    requires s'.workers == s.workers[i := Done]
    ensures DoneWorkers(s') == DoneWorkers(s) + {i} && i !in DoneWorkers(s)
    ensures AnsweredWorkers(s') == AnsweredWorkers(s)
  {
  }

  lemma AppendMessage(r: Round, sent: seq<Msg>, msg: Msg)
    requires NoRepeats(sent) && Truthful(r, sent)
    requires msg.worker !in Senders(sent) && TruthfulMsg(r, msg)
    ensures NoRepeats(sent + [msg]) && Truthful(r, sent + [msg])
  {
    assert forall k :: 0 <= k < |sent| ==> sent[k].worker in Senders(sent);
  }

  lemma SendMessages(r: Round, s: State, i: nat)
    requires WorkersInv(r, s) && MessagesInv(r, s) && Enabled(r, s, Send(i))
    ensures MessagesInv(r, Apply(r, s, Send(i)))
    ensures |DoneWorkers(Apply(r, s, Send(i)))| == |DoneWorkers(s)| + 1
    ensures AnsweredWorkers(Apply(r, s, Send(i))) == AnsweredWorkers(s)
  {
    var s' := Apply(r, s, Send(i));
    var msg := Msg(i, s.workers[i].result);
    assert Traffic(s') == Traffic(s) + [msg];
    SentSet(s, s', i);
    SendersAppend(Traffic(s), msg);
    AppendMessage(r, Traffic(s), msg);
  }

  lemma SendInv(r: Round, s: State, i: nat)
    requires Inv(r, s) && Enabled(r, s, Send(i))
    ensures Inv(r, Apply(r, s, Send(i)))
    ensures AnsweredWorkers(Apply(r, s, Send(i))) == AnsweredWorkers(s)
    ensures |DoneWorkers(Apply(r, s, Send(i)))| == |DoneWorkers(s)| + 1
  {
    SendMessages(r, s, i);
  }

  lemma SpawnInv(r: Round, s: State)
    requires Inv(r, s) && Enabled(r, s, Spawn)
    ensures Inv(r, Apply(r, s, Spawn))
    ensures AnsweredWorkers(Apply(r, s, Spawn)) == AnsweredWorkers(s)
    ensures DoneWorkers(Apply(r, s, Spawn)) == DoneWorkers(s)
  {
    var s' := Apply(r, s, Spawn);
    assert Traffic(s') == Traffic(s);
    assert AnsweredWorkers(s') == AnsweredWorkers(s);
    assert DoneWorkers(s') == DoneWorkers(s);
  }

  lemma ReceiveInv(r: Round, s: State)
    requires Inv(r, s) && Enabled(r, s, Receive)
    ensures Inv(r, Apply(r, s, Receive))
    ensures AnsweredWorkers(Apply(r, s, Receive)) == AnsweredWorkers(s)
    ensures DoneWorkers(Apply(r, s, Receive)) == DoneWorkers(s)
  {
    var s' := Apply(r, s, Receive);
    assert Traffic(s') == Traffic(s);
    assert AnsweredWorkers(s') == AnsweredWorkers(s);
    assert DoneWorkers(s') == DoneWorkers(s);
  }

  /** Every schedule keeps the invariant, and its length is the number of steps its workers and
      collector have taken. */
  lemma {:induction false} RunInv(r: Round, schedule: seq<Action>)
    requires Run(r, schedule).Some?
    ensures var s := Run(r, schedule).value;
      Inv(r, s) && |schedule| == s.spawned + |AnsweredWorkers(s)| + |DoneWorkers(s)| + |s.received|
  {
    if schedule == [] {
      InitInv(r);
      assert AnsweredWorkers(Init(r)) == {} && DoneWorkers(Init(r)) == {};
    } else {
      var before := schedule[..|schedule| - 1];
      RunInv(r, before);
      var s := Run(r, before).value;
      match schedule[|schedule| - 1] {
        case Spawn => SpawnInv(r, s);
        case Answer(i) => AnswerInv(r, s, i);
        case Send(i) => SendInv(r, s, i);
        case Receive => ReceiveInv(r, s);
      }
    }
  }

  /** A worker that has its result can always send it: the channel never blocks it. */
  lemma SendNeverBlocks(r: Round, schedule: seq<Action>, i: nat)
    requires Run(r, schedule).Some? && i < |Run(r, schedule).value.workers|
    requires Run(r, schedule).value.workers[i].Sending?
    ensures Enabled(r, Run(r, schedule).value, Send(i)) && |Run(r, schedule).value.channel| < |r.keys|
  {
    var s := Run(r, schedule).value;
    RunInv(r, schedule);
    Conservation(r, s);
    assert i in PendingWorkers(s);
  }

  lemma Extend(r: Round, schedule: seq<Action>, a: Action)
    requires Run(r, schedule).Some? && Enabled(r, Run(r, schedule).value, a)
    ensures Run(r, schedule + [a]) == Some(Apply(r, Run(r, schedule).value, a))
  {
    assert (schedule + [a])[..|schedule|] == schedule;
  }

  lemma OutstandingCall(r: Round, s: State) returns (a: Action)
    requires Inv(r, s) && !Complete(r, s) && s.spawned == |r.keys| && s.channel == []
    requires forall i :: 0 <= i < |r.keys| ==> !s.workers[i].Sending?
    ensures a.Answer? && Enabled(r, s, a)
    ensures forall b: Action :: Enabled(r, s, b) ==> b.Answer?
  {
    Conservation(r, s);
    assert PendingWorkers(s) != {};
    var i :| i in PendingWorkers(s);
    a := Answer(i);
  }

  /** While the collector waits, some action is enabled, and if no signer call is outstanding it is
      an action of the program itself. */
  lemma Progress(r: Round, schedule: seq<Action>) returns (a: Action)
    requires Run(r, schedule).Some? && !Complete(r, Run(r, schedule).value)
    ensures Enabled(r, Run(r, schedule).value, a)
    ensures Run(r, schedule + [a]).Some?
    ensures a.Answer? ==> forall b: Action :: Enabled(r, Run(r, schedule).value, b) ==> b.Answer?
  {
    var s := Run(r, schedule).value;
    RunInv(r, schedule);
    Conservation(r, s);
    if s.spawned < |r.keys| {
      a := Spawn;
    } else if s.channel != [] {
      a := Receive;
    } else if i :| 0 <= i < |r.keys| && s.workers[i].Sending? {
      SendNeverBlocks(r, schedule, i);
      a := Send(i);
    } else {
      a := OutstandingCall(r, s);
    }
    Extend(r, schedule, a);
  }

  /** No schedule is longer than 4n actions, and it is complete exactly at that length: with
      `Progress`, every maximal schedule ends with the collector finished. */
  lemma ScheduleLength(r: Round, schedule: seq<Action>)
    requires Run(r, schedule).Some?
    ensures |schedule| <= 4 * |r.keys|
    ensures Complete(r, Run(r, schedule).value) <==> |schedule| == 4 * |r.keys|
  {
    var s := Run(r, schedule).value;
    RunInv(r, schedule);
    Conservation(r, s);
    SubsetSize(AnsweredWorkers(s), UpTo(|r.keys|));
    SubsetSize(DoneWorkers(s), AnsweredWorkers(s));
  }

  lemma OneMorePair(r: Round, init: seq<Msg>, last: Msg)
    requires last.worker !in Senders(init) && TruthfulMsg(r, last)
    requires |Pairs(init)| == |Senders(init) * GoodWorkers(r)|
    ensures |Pairs(init + [last])| == |Senders(init + [last]) * GoodWorkers(r)|
  {
    SendersAppend(init, last);
    assert (init + [last])[..|init|] == init;
    JudgeMeaning(r, last.worker, last.result);
    assert last.result.Some? <==> last.worker in GoodWorkers(r);
    AddMember(Senders(init), last.worker, GoodWorkers(r));
  }

  /** The pairs collected from messages without repeats are as many as their good senders. */
  lemma {:induction false} PairsCount(r: Round, msgs: seq<Msg>)
    requires NoRepeats(msgs)
    requires Truthful(r, msgs)
    ensures |Pairs(msgs)| == |Senders(msgs) * GoodWorkers(r)|
  {
    if msgs == [] {
      assert Senders(msgs) * GoodWorkers(r) == {};
    } else {
      var init, last := msgs[..|msgs| - 1], msgs[|msgs| - 1];
      PairsCount(r, init);
      assert msgs == init + [last];
      OneMorePair(r, init, last);
    }
  }

  lemma AllDone(r: Round, s: State)
    requires Inv(r, s) && Complete(r, s)
    ensures s.channel == [] && DoneWorkers(s) == AnsweredWorkers(s) == UpTo(|r.keys|)
  {
    Conservation(r, s);
    SubsetSize(DoneWorkers(s), UpTo(|r.keys|));
    assert DoneWorkers(s) <= AnsweredWorkers(s) <= UpTo(|r.keys|);
  }

  lemma CountedAll(r: Round, s: State)
    requires CountersInv(r, s) && AnsweredWorkers(s) == UpTo(|r.keys|)
    ensures s.successes == |GoodWorkers(r)| && s.successes + s.failures == |r.keys|
  {
    assert GoodWorkers(r) <= AnsweredWorkers(s);
    SplitSize(AnsweredWorkers(s), GoodWorkers(r));
  }

  /** What the collector holds when it is finished, whatever the schedule was. */
  lemma FinishedRound(r: Round, schedule: seq<Action>)
    requires Finishes(r, schedule)
    ensures var s := Run(r, schedule).value;
      && s.channel == [] && NoRepeats(s.received)
      && Senders(s.received) == UpTo(|r.keys|)
      && Truthful(r, s.received)
      && s.successes == |GoodWorkers(r)| && s.successes + s.failures == |r.keys|
  {
    var s := Run(r, schedule).value;
    RunInv(r, schedule);
    AllDone(r, s);
    CountedAll(r, s);
    assert Traffic(s) == s.received;
  }

  /**
   Every schedule agrees: the collector gets exactly one result per covenant key, it succeeds if and
   only if at least `quorum` requests return a verifying signature, and it then keeps exactly
   `quorum` pairs. Every request has been counted as a success or a failure by then.
   */
  lemma OutcomeIndependentOfSchedule(r: Round, quorum: nat, schedule: seq<Action>)
    requires Finishes(r, schedule)
    ensures var s := Run(r, schedule).value;
      && Senders(s.received) == UpTo(|r.keys|)
      && (Quorum(Pairs(s.received), quorum).Some? <==> |GoodWorkers(r)| >= quorum)
      && (Quorum(Pairs(s.received), quorum).Some? ==> |Quorum(Pairs(s.received), quorum).value| == quorum)
      && s.successes == |GoodWorkers(r)| && s.successes + s.failures == |r.keys|
  {
    var s := Run(r, schedule).value;
    FinishedRound(r, schedule);
    PairsCount(r, s.received);
    assert Senders(s.received) * GoodWorkers(r) == GoodWorkers(r);
  }

  /** The messages of the given workers, in that order. */
  function Msgs(r: Round, order: seq<nat>): (msgs: seq<Msg>)
    requires forall k :: 0 <= k < |order| ==> order[k] < |r.keys|
    ensures |msgs| == |order|
    ensures forall k :: 0 <= k < |order| ==> msgs[k] == Msg(order[k], Judge(r, order[k]))
  {
    seq(|order|, k requires 0 <= k < |order| => Msg(order[k], Judge(r, order[k])))
  }

  /** An order in which `n` workers can deliver: each of them once. */
  ghost predicate ArrivalOrder(order: seq<nat>, n: nat) {
    && |order| == n
    && (forall k :: 0 <= k < n ==> order[k] < n)
    && forall j, k :: 0 <= j < k < n ==> order[j] != order[k]
  }

  lemma OrderOfMessages(r: Round, msgs: seq<Msg>) returns (order: seq<nat>)
    requires Truthful(r, msgs) && NoRepeats(msgs) && |msgs| == |r.keys|
    ensures ArrivalOrder(order, |r.keys|) && msgs == Msgs(r, order)
  {
    order := seq(|msgs|, k requires 0 <= k < |msgs| => msgs[k].worker);
    assert forall k :: 0 <= k < |msgs| ==> TruthfulMsg(r, msgs[k]);
  }

  /** The order in which a finished collector received its results is an arrival order. */
  lemma ReceivedInArrivalOrder(r: Round, schedule: seq<Action>) returns (order: seq<nat>)
    requires Finishes(r, schedule)
    ensures ArrivalOrder(order, |r.keys|)
    ensures Run(r, schedule).value.received == Msgs(r, order)
  {
    FinishedRound(r, schedule);
    order := OrderOfMessages(r, Run(r, schedule).value.received);
  }

  lemma {:induction false} SpawnAll(r: Round, k: nat) returns (schedule: seq<Action>)
    requires k <= |r.keys|
    ensures Run(r, schedule).Some?
    ensures var s := Run(r, schedule).value;
      && s.spawned == k && s.channel == [] && s.received == [] && |s.workers| == |r.keys|
      && forall i :: 0 <= i < k ==> s.workers[i].Calling?
  {
    schedule := [];
    if k > 0 {
      schedule := SpawnAll(r, k - 1);
      Extend(r, schedule, Spawn);
      schedule := schedule + [Spawn];
    }
  }

  lemma {:induction false} AnswerAll(r: Round, k: nat) returns (schedule: seq<Action>)
    requires k <= |r.keys|
    ensures Run(r, schedule).Some?
    ensures var s := Run(r, schedule).value;
      && s.spawned == |r.keys| && s.channel == [] && s.received == [] && |s.workers| == |r.keys|
      && forall i :: 0 <= i < |r.keys| ==> s.workers[i] == if i < k then Sending(Judge(r, i)) else Calling
  {
    if k == 0 {
      schedule := SpawnAll(r, |r.keys|);
    } else {
      schedule := AnswerAll(r, k - 1);
      Extend(r, schedule, Answer(k - 1));
      schedule := schedule + [Answer(k - 1)];
    }
  }

  lemma {:induction false} SendAll(r: Round, order: seq<nat>, k: nat) returns (schedule: seq<Action>)
    requires ArrivalOrder(order, |r.keys|) && k <= |order|
    ensures Run(r, schedule).Some?
    ensures var s := Run(r, schedule).value;
      && s.spawned == |r.keys| && s.received == [] && |s.workers| == |r.keys|
      && s.channel == Msgs(r, order)[..k]
      && forall j :: k <= j < |order| ==> s.workers[order[j]] == Sending(Judge(r, order[j]))
  {
    if k == 0 {
      schedule := AnswerAll(r, |r.keys|);
    } else {
      schedule := SendAll(r, order, k - 1);
      var i := order[k - 1];
      Extend(r, schedule, Send(i));
      schedule := schedule + [Send(i)];
      assert Msgs(r, order)[..k] == Msgs(r, order)[..k - 1] + [Msg(i, Judge(r, i))];
    }
  }

  lemma {:induction false} ReceiveAll(r: Round, order: seq<nat>, k: nat) returns (schedule: seq<Action>)
    requires ArrivalOrder(order, |r.keys|) && k <= |order|
    ensures Run(r, schedule).Some?
    ensures var s := Run(r, schedule).value;
      && s.spawned == |r.keys|
      && s.received == Msgs(r, order)[..k] && s.channel == Msgs(r, order)[k..]
  {
    if k == 0 {
      schedule := SendAll(r, order, |order|);
      assert Msgs(r, order)[..|order|] == Msgs(r, order) == Msgs(r, order)[0..];
    } else {
      schedule := ReceiveAll(r, order, k - 1);
      Extend(r, schedule, Receive);
      schedule := schedule + [Receive];
      assert Msgs(r, order)[..k] == Msgs(r, order)[..k - 1] + [Msgs(r, order)[k - 1]];
      assert Msgs(r, order)[k - 1..][1..] == Msgs(r, order)[k..];
    }
  }

  /** Every arrival order is the result of some schedule. */
  lemma EveryArrivalOrderOccurs(r: Round, order: seq<nat>)
    requires ArrivalOrder(order, |r.keys|)
    ensures exists schedule :: Finishes(r, schedule) && Run(r, schedule).value.received == Msgs(r, order)
  {
    var schedule := ReceiveAll(r, order, |order|);
    assert Msgs(r, order)[..|order|] == Msgs(r, order);
    assert Complete(r, Run(r, schedule).value);
  }

  /** The collector's loop over the results in order of arrival. */
  method CollectQuorum(received: seq<Msg>, quorum: nat) returns (sigs: Option<seq<Pair>>)
    ensures sigs == Quorum(Pairs(received), quorum)
  {
    var signatures: seq<Pair> := [];
    for i := 0 to |received|
      invariant signatures == Pairs(received[..i])
    {
      assert received[..i + 1][..i] == received[..i];
      var res := received[i].result;
      if res.None? {
        continue;
      }
      signatures := signatures + [res.value];
    }
    assert received[..|received|] == received;
    if |signatures| < quorum {
      return None;
    }
    return Some(signatures[..quorum]);
  }

  // ---------- which answers are returned ----------

  /** What the collector of a finished schedule returns. */
  function Returned(r: Round, schedule: seq<Action>, quorum: nat): Option<seq<Pair>>
    requires Run(r, schedule).Some?
  {
    Quorum(Pairs(Run(r, schedule).value.received), quorum)
  }

  /** The workers in the order in which a schedule lets them send. */
  function SendOrder(schedule: seq<Action>): seq<nat> {
    if schedule == [] then []
    else
      var last := schedule[|schedule| - 1];
      SendOrder(schedule[..|schedule| - 1]) + (if last.Send? then [last.i] else [])
  }

  /** Messages are received in the order in which they were sent. */
  lemma {:induction false} FirstInFirstOut(r: Round, schedule: seq<Action>)
    requires Run(r, schedule).Some?
    ensures var traffic := Traffic(Run(r, schedule).value);
      |traffic| == |SendOrder(schedule)| && forall k :: 0 <= k < |traffic| ==> traffic[k].worker == SendOrder(schedule)[k]
  {
    if schedule != [] {
      var init, last := schedule[..|schedule| - 1], schedule[|schedule| - 1];
      FirstInFirstOut(r, init);
      var s := Run(r, init).value;
      TrafficAfter(r, s, last);
    }
  }

  lemma TrafficAfter(r: Round, s: State, a: Action)
    requires Enabled(r, s, a)
    ensures Traffic(Apply(r, s, a))
            == Traffic(s) + if a.Send? then [Msg(a.i, s.workers[a.i].result)] else []
  {
    if a.Send? {
      assert Traffic(Apply(r, s, a)) == s.received + (s.channel + [Msg(a.i, s.workers[a.i].result)]);
    }
  }

  /**
   `sigs` are the answers of the first workers in `good` along `order`: those at the increasing positions
   `at`, before which no other good worker stands.
   */
  ghost predicate Earliest(replies: nat -> Reply, good: set<nat>, order: seq<nat>, at: seq<nat>, sigs: seq<Pair>) {
    && |at| == |sigs|
    && (forall j, k :: 0 <= j < k < |at| ==> at[j] < at[k])
    && (forall k :: 0 <= k < |at| ==> at[k] < |order| && order[at[k]] in good && replies(order[at[k]]) == Some(sigs[k]))
    && forall p, k :: 0 <= p < |order| && order[p] in good && p !in at && 0 <= k < |at| ==> at[k] < p
  }

  /** The good workers among the first `m` that deliver, and their answers. */
  lemma {:induction false} GoodPositions(r: Round, order: seq<nat>, m: nat) returns (at: seq<nat>)
    requires m <= |order| && forall k :: 0 <= k < |order| ==> order[k] < |r.keys|
    ensures Earliest(r.replies, GoodWorkers(r), order[..m], at, Pairs(Msgs(r, order)[..m]))
    ensures forall p: nat :: p in at <==> p < m && order[p] in GoodWorkers(r)
  {
    at := [];
    if m > 0 {
      at := GoodPositions(r, order, m - 1);
      assert Msgs(r, order)[..m][..m - 1] == Msgs(r, order)[..m - 1];
      JudgeMeaning(r, order[m - 1], Judge(r, order[m - 1]));
      if order[m - 1] in GoodWorkers(r) {
        at := at + [m - 1];
      }
    }
  }

  lemma EarliestPrefix(replies: nat -> Reply, good: set<nat>, order: seq<nat>, at: seq<nat>, sigs: seq<Pair>, k: nat)
    requires Earliest(replies, good, order, at, sigs) && k <= |at|
    requires forall p: nat :: p < |order| && order[p] in good ==> p in at
    ensures Earliest(replies, good, order, at[..k], sigs[..k])
  {
    forall p, j | 0 <= p < |order| && order[p] in good && p !in at[..k] && 0 <= j < k
      ensures at[j] < p
    {
      var l :| 0 <= l < |at| && at[l] == p;
      assert forall q :: 0 <= q < k ==> at[..k][q] == at[q];
    }
  }

  lemma EarliestCollected(r: Round, order: seq<nat>, quorum: nat) returns (at: seq<nat>)
    requires ArrivalOrder(order, |r.keys|) && Quorum(Pairs(Msgs(r, order)), quorum).Some?
    ensures |at| == quorum
    ensures Earliest(r.replies, GoodWorkers(r), order, at, Quorum(Pairs(Msgs(r, order)), quorum).value)
  {
    var all := GoodPositions(r, order, |order|);
    assert order[..|order|] == order && Msgs(r, order)[..|order|] == Msgs(r, order);
    EarliestPrefix(r.replies, GoodWorkers(r), order, all, Pairs(Msgs(r, order)), quorum);
    at := all[..quorum];
  }

  lemma SentInOrder(r: Round, schedule: seq<Action>)
    requires Finishes(r, schedule)
    ensures ArrivalOrder(SendOrder(schedule), |r.keys|)
    ensures Run(r, schedule).value.received == Msgs(r, SendOrder(schedule))
  {
    FinishedRound(r, schedule);
    FirstInFirstOut(r, schedule);
    var order := OrderOfMessages(r, Run(r, schedule).value.received);
    assert order == SendOrder(schedule);
  }

  /**
   What a finished schedule returns: nothing if fewer answers verify than the quorum, and otherwise the
   answers of the first quorum many workers, in the order of sending, whose answers verify.
   */
  lemma ReturnedAreTheFirst(r: Round, schedule: seq<Action>, quorum: nat)
    requires Finishes(r, schedule)
    ensures var sigs := Returned(r, schedule, quorum);
      && ArrivalOrder(SendOrder(schedule), |r.keys|)
      && (sigs.None? <==> |GoodWorkers(r)| < quorum)
      && (sigs.Some? ==> && |sigs.value| == quorum
                         && exists at :: Earliest(r.replies, GoodWorkers(r), SendOrder(schedule), at, sigs.value))
  {
    SentInOrder(r, schedule);
    OutcomeIndependentOfSchedule(r, quorum, schedule);
    if Returned(r, schedule, quorum).Some? {
      var at := EarliestCollected(r, SendOrder(schedule), quorum);
    }
  }

  // ---------- whose answers give a witness the script accepts ----------

  /** The collected pairs are the kept answers of different workers. */
  ghost predicate From(r: Round, pairs: seq<Pair>, workers: seq<nat>) {
    && |workers| == |pairs|
    && (forall k :: 0 <= k < |pairs| ==> workers[k] < |r.keys| && Judge(r, workers[k]) == Some(pairs[k]))
    && forall j, k :: 0 <= j < k < |pairs| ==> workers[j] != workers[k]
  }

  lemma {:induction false} PairsFrom(r: Round, msgs: seq<Msg>) returns (workers: seq<nat>)
    requires NoRepeats(msgs) && Truthful(r, msgs)
    ensures From(r, Pairs(msgs), workers)
    ensures forall k :: 0 <= k < |workers| ==> workers[k] in Senders(msgs)
  {
    workers := [];
    if msgs != [] {
      var init, last := msgs[..|msgs| - 1], msgs[|msgs| - 1];
      workers := PairsFrom(r, init);
      SendersAppend(init, last);
      assert msgs == init + [last];
      assert last.worker !in Senders(init);
      assert TruthfulMsg(r, last);
      if last.result.Some? {
        workers := workers + [last.worker];
      }
    }
  }

  /** Any `k` of the collected pairs are good ones if the answers are credible for a quorum of `k`. */
  lemma CredibleIsGood(r: Round, pairs: seq<Pair>, workers: seq<nat>, k: nat)
    requires From(r, pairs, workers) && k <= |pairs| && Credible(r, k)
    ensures GoodPairs(r.verify, r.keys, pairs[..k])
  {
    forall i | 0 <= i < k
      ensures Vouched(r.verify, r.keys, pairs[..k][i])
    {
      assert Judge(r, workers[i]) == Some(pairs[i]);
    }
    forall i, j | 0 <= i < j < k
      ensures pairs[..k][i].key.x != pairs[..k][j].key.x
    {
      assert Judge(r, workers[i]) == Some(pairs[i]) && Judge(r, workers[j]) == Some(pairs[j]);
    }
  }

  /** A signer that pairs its answers is credible for every quorum of distinct keys. */
  lemma PairedIsCredible(r: Round, quorum: nat)
    requires Paired(r) && DistinctXOnly(r.keys)
    ensures Credible(r, quorum)
  {
    assert forall i :: 0 <= i < |r.keys| && Verified(r, i) ==> r.replies(i).value.key == r.keys[i];
  }

  /** The script of the committee accepts the slots built from these pairs. */
  predicate ScriptAccepts(r: Round, params: SystemParams, pairs: seq<Pair>) {
    Accepts(r.verify, CovenantScriptOf(params), StackOf(WitnessSlots(params.keys, pairs)))
  }

  /**
   For every committee with distinct x-only keys, every quorum, every set of answers and every
   schedule: collection succeeds if and only if enough answers are kept, the witness built from what
   it returns satisfies the covenant script if and only if the returned pairs are good ones, and
   credible answers make them so.
   */
  lemma CollectedWitnessSatisfiesScript(r: Round, params: SystemParams, schedule: seq<Action>)
    requires r.keys == params.keys != [] && DistinctXOnly(params.keys)
    requires Finishes(r, schedule)
    ensures var sigs := Returned(r, schedule, params.quorum);
      && (sigs.Some? <==> |GoodWorkers(r)| >= params.quorum)
      && (sigs.Some? ==> && (ScriptAccepts(r, params, sigs.value) <==> GoodPairs(r.verify, params.keys, sigs.value))
                         && (Credible(r, params.quorum) ==> ScriptAccepts(r, params, sigs.value)))
  {
    var s := Run(r, schedule).value;
    FinishedRound(r, schedule);
    OutcomeIndependentOfSchedule(r, params.quorum, schedule);
    if |Pairs(s.received)| >= params.quorum {
      QuorumAcceptedIff(r.verify, params, Pairs(s.received)[..params.quorum]);
      if Credible(r, params.quorum) {
        var workers := PairsFrom(r, s.received);
        CredibleIsGood(r, Pairs(s.received), workers, params.quorum);
      }
    }
  }

  /** Some arrival order starts with any given different workers. */
  lemma StartingWith(r: Round, front: seq<nat>) returns (order: seq<nat>)
    requires |front| <= |r.keys| && forall k :: 0 <= k < |front| ==> front[k] < |r.keys|
    requires forall j, k :: 0 <= j < k < |front| ==> front[j] != front[k]
    ensures ArrivalOrder(order, |r.keys|) && front <= order
    decreases |r.keys| - |front|
  {
    if |front| == |r.keys| {
      order := front;
    } else {
      var senders := Senders(Msgs(r, front));
      SendersCount(Msgs(r, front));
      if UpTo(|r.keys|) <= senders {
        SubsetSize(UpTo(|r.keys|), senders);
        assert false;
      }
      var i: nat :| i in UpTo(|r.keys|) && i !in senders;
      assert forall k :: 0 <= k < |front| ==> Msgs(r, front)[k].worker in senders;
      order := StartingWith(r, front + [i]);
    }
  }

  lemma {:induction false} PairsPrefix(msgs: seq<Msg>, k: nat)
    requires k <= |msgs|
    ensures Pairs(msgs[..k]) <= Pairs(msgs)
  {
    if k == |msgs| {
      assert msgs[..k] == msgs;
    } else {
      PairsPrefix(msgs[..|msgs| - 1], k);
      assert msgs[..|msgs| - 1][..k] == msgs[..k];
    }
  }

  /** What the given workers deliver, all of them with a verifying signature. */
  lemma {:induction false} PairsOfGood(r: Round, front: seq<nat>)
    requires forall k :: 0 <= k < |front| ==> front[k] < |r.keys| && Judge(r, front[k]).Some?
    ensures |Pairs(Msgs(r, front))| == |front|
    ensures forall k :: 0 <= k < |front| ==> Pairs(Msgs(r, front))[k] == Judge(r, front[k]).value
  {
    if front != [] {
      var n := |front| - 1;
      PairsOfGood(r, front[..n]);
      assert Msgs(r, front)[..n] == Msgs(r, front[..n]);
    }
  }

  lemma FrontComesFirst(r: Round, front: seq<nat>, order: seq<nat>)
    requires ArrivalOrder(order, |r.keys|) && front <= order
    requires forall k :: 0 <= k < |front| ==> Judge(r, order[k]).Some?
    ensures |front| <= |Pairs(Msgs(r, order))|
    ensures forall k :: 0 <= k < |front| ==> Pairs(Msgs(r, order))[k] == Judge(r, order[k]).value
  {
    PairsOfGood(r, front);
    PairsPrefix(Msgs(r, order), |front|);
    assert Msgs(r, order)[..|front|] == Msgs(r, front);
  }

  /** Some schedule returns the answers of the given workers first. */
  lemma ReturnedFirst(r: Round, front: seq<nat>, quorum: nat) returns (schedule: seq<Action>)
    requires |front| <= quorum <= |GoodWorkers(r)|
    requires forall k :: 0 <= k < |front| ==> front[k] < |r.keys| && Judge(r, front[k]).Some?
    requires forall j, k :: 0 <= j < k < |front| ==> front[j] != front[k]
    ensures Finishes(r, schedule) && Returned(r, schedule, quorum).Some?
    ensures var sigs := Returned(r, schedule, quorum).value;
      |sigs| == quorum && forall k :: 0 <= k < |front| ==> sigs[k] == Judge(r, front[k]).value
  {
    var order := StartingWith(r, front);
    EveryArrivalOrderOccurs(r, order);
    schedule :| Finishes(r, schedule) && Run(r, schedule).value.received == Msgs(r, order);
    OutcomeIndependentOfSchedule(r, quorum, schedule);
    FrontComesFirst(r, front, order);
  }

  /** Answers that are not credible spoil what some schedule returns. */
  lemma SpoilingSchedule(r: Round, quorum: nat) returns (schedule: seq<Action>)
    requires quorum <= |GoodWorkers(r)| && !Credible(r, quorum)
    ensures Finishes(r, schedule) && Returned(r, schedule, quorum).Some?
    ensures |Returned(r, schedule, quorum).value| == quorum
    ensures !GoodPairs(r.verify, r.keys, Returned(r, schedule, quorum).value)
  {
    if !AllVouched(r) {
      var i :| 0 <= i < |r.keys| && Verified(r, i) && !Vouched(r.verify, r.keys, r.replies(i).value);
      schedule := ReturnedFirst(r, [i], quorum);
      assert Returned(r, schedule, quorum).value[0] == Judge(r, [i][0]).value;
    } else {
      var i, j :| 0 <= i < j < |r.keys| && Verified(r, i) && Verified(r, j)
                  && r.replies(i).value.key.x == r.replies(j).value.key.x;
      schedule := ReturnedFirst(r, [i, j], quorum);
      var sigs := Returned(r, schedule, quorum).value;
      assert sigs[0] == Judge(r, [i, j][0]).value && sigs[1] == Judge(r, [i, j][1]).value;
    }
  }

  /** Whatever the schedule, a witness built after a successful collection satisfies the script. */
  ghost predicate AcceptedOnEverySchedule(r: Round, params: SystemParams) {
    forall schedule :: Finishes(r, schedule) && Returned(r, schedule, params.quorum).Some? ==>
      ScriptAccepts(r, params, Returned(r, schedule, params.quorum).value)
  }

  /**
   Exactly for which answers of the signer every schedule gives a witness the covenant script accepts:
   too few are kept for the quorum, so that nothing is built; or the committee is not empty and each
   kept answer names a member under whose own key it verifies, no two of them the same one if the
   quorum is two or more. With a quorum of none any answers will do.
   */
  lemma AcceptedOnEveryScheduleIff(r: Round, params: SystemParams)
    requires r.keys == params.keys && DistinctXOnly(params.keys)
    ensures AcceptedOnEverySchedule(r, params)
            <==> |GoodWorkers(r)| < params.quorum || (params.keys != [] && Credible(r, params.quorum))
  {
    if params.keys == [] {
      EmptyCommitteeAccepted(r, params);
    } else {
      forall schedule | Finishes(r, schedule)
        ensures Returned(r, schedule, params.quorum).Some? ==>
                  && |GoodWorkers(r)| >= params.quorum
                  && (Credible(r, params.quorum) ==> ScriptAccepts(r, params, Returned(r, schedule, params.quorum).value))
      {
        CollectedWitnessSatisfiesScript(r, params, schedule);
      }
      if |GoodWorkers(r)| >= params.quorum && !Credible(r, params.quorum) {
        var schedule := SpoilingSchedule(r, params.quorum);
        CollectedWitnessSatisfiesScript(r, params, schedule);
      }
    }
  }

  lemma EmptyCommitteeAccepted(r: Round, params: SystemParams)
    requires r.keys == params.keys == []
    ensures AcceptedOnEverySchedule(r, params) <==> |GoodWorkers(r)| < params.quorum
  {
    assert Run(r, []) == Some(Init(r)) && Finishes(r, []);
    EmptyCommitteeRejects(r.verify, params.quorum);
    forall schedule | Finishes(r, schedule)
      ensures Returned(r, schedule, params.quorum).Some? <==> |GoodWorkers(r)| >= params.quorum
    {
      OutcomeIndependentOfSchedule(r, params.quorum, schedule);
    }
    if params.quorum == 0 {
      assert Returned(r, [], 0) == Some([]);
      NoSlots(params);
      assert !ScriptAccepts(r, params, []);
    }
  }

  lemma NoSlots(params: SystemParams)
    requires params.keys == []
    ensures CovenantScriptOf(params) == Multisig([], params.quorum)
    ensures forall pairs :: StackOf(WitnessSlots(params.keys, pairs)) == []
  {
  }

  /** Without the cut to the quorum the script rejects as soon as more members than that signed. */
  lemma TruncationIsNeeded(r: Round, params: SystemParams, schedule: seq<Action>)
    requires r.keys == params.keys != [] && DistinctXOnly(params.keys)
    requires AllVouched(r) && NoneShared(r)
    requires Finishes(r, schedule)
    ensures ScriptAccepts(r, params, Pairs(Run(r, schedule).value.received)) <==> |GoodWorkers(r)| == params.quorum
  {
    var received := Run(r, schedule).value.received;
    FinishedRound(r, schedule);
    PairsCount(r, received);
    assert Senders(received) * GoodWorkers(r) == GoodWorkers(r);
    var workers := PairsFrom(r, received);
    CredibleIsGood(r, Pairs(received), workers, |Pairs(received)|);
    assert Pairs(received)[..|Pairs(received)|] == Pairs(received);
    GoodPairsAcceptedIff(r.verify, params, Pairs(received));
  }

  /**
   The pairing is needed: the code verifies a signature under the requested key but keeps the pair as
   it was returned, so a member that answers with another member's key spoils the witness.
   */
  lemma PairingIsNeeded() returns (r: Round, params: SystemParams, schedule: seq<Action>)
    ensures r.keys == params.keys && DistinctXOnly(params.keys) && 1 <= params.quorum <= |params.keys|
    ensures Finishes(r, schedule)
    ensures var sigs := Returned(r, schedule, params.quorum);
      sigs.Some? && !ScriptAccepts(r, params, sigs.value)
  {
    var a, b := PubKey(false, seq(32, _ => 0)), PubKey(false, seq(32, _ => 1));
    assert a.x[0] != b.x[0];
    var sig: Signature := seq(64, _ => 0);
    var pair := Pair(b, sig);
    r := Round([a, b], (x: XOnly, s: Signature) => x == a.x, (i: nat) => if i == 0 then Some(pair) else None);
    params := SystemParams([a, b], 1, []);
    var order: seq<nat> := [0, 1];
    EveryArrivalOrderOccurs(r, order);
    schedule :| Finishes(r, schedule) && Run(r, schedule).value.received == Msgs(r, order);
    PairsOfTwo(Msgs(r, order), pair);
    assert [pair][..1] == [pair];
    WrongKeyRejected(r.verify, params, pair);
  }

  lemma WrongKeyRejected(verify: Verifier, params: SystemParams, pair: Pair)
    requires DistinctXOnly(params.keys) && pair.key in params.keys && !verify(pair.key.x, pair.sig)
    ensures !Accepts(verify, CovenantScriptOf(params), StackOf(WitnessSlots(params.keys, [pair])))
  {
    WitnessAcceptedIff(verify, params, [pair]);
    assert LastSignature([pair], pair.key.x) == Some(pair.sig);
  }

  lemma PairsOfTwo(msgs: seq<Msg>, pair: Pair)
    requires |msgs| == 2 && msgs[0].result == Some(pair) && msgs[1].result == None
    ensures Pairs(msgs) == [pair]
  {
    assert msgs[..1][..0] == [];
    assert Pairs(msgs[..1]) == [pair];
  }
}
