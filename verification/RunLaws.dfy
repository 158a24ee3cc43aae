/**
 Safety over whole runs: arbitrary sequences of additions, new-transaction runs and
 failed-transaction runs of one pipeline.
 */
module RunLaws {
  import opened PipelineModel
  import opened BatchLaws
  import opened Requirements

  // ---------- states only move forward ----------

  /** `Send` and `InputAlreadySpent` are never left and nothing returns to `Inserted`; what was
      submitted never changes and nothing is removed. */
  ghost predicate Forward(q: Queue, q': Queue) {
    && |q| <= |q'|
    && forall i :: 0 <= i < |q| ==> EntryForward(q[i], q'[i])
  }

  ghost predicate EntryForward(e: Entry, e': Entry) {
    && e'.sub == e.sub
    && (Final(e.state) ==> e'.state == e.state)
    && (e.state != Inserted ==> e'.state != Inserted)
  }

  predicate Final(st: DocState) {
    st == DocState.Send || st == InputAlreadySpent
  }

  lemma OutcomeForward(s: Sys, st: DocState, r: Res)
    requires !Final(st) && BatchOutcome(s, Fetch(s.queue, st), r)
    ensures Forward(s.queue, r.s.queue)
  {
    var q, q', idxs := s.queue, r.s.queue, Fetch(s.queue, st);
    FetchMeaning(q, st);
    OutcomeIsPrefix(s, idxs, r);
    forall i | 0 <= i < |q|
      ensures EntryForward(q[i], q'[i])
    {
      if i in idxs {
        var k :| 0 <= k < |idxs| && idxs[k] == i;
        assert q'[idxs[k]].state == q[idxs[k]].state || SettledAs(NewEvents(s, r.s)[k], q'[idxs[k]].state);
      }
    }
  }

  lemma BatchForward(w: World, s: Sys, st: DocState)
    requires !Final(st)
    ensures Forward(s.queue, Batch(w, s, Fetch(s.queue, st)).s.queue)
    ensures s.history <= Batch(w, s, Fetch(s.queue, st)).s.history
  {
    FetchMeaning(s.queue, st);
    BatchLaw(w, s, Fetch(s.queue, st));
    OutcomeForward(s, st, Batch(w, s, Fetch(s.queue, st)));
  }

  lemma ForwardTransitive(q: Queue, q1: Queue, q2: Queue)
    requires Forward(q, q1) && Forward(q1, q2)
    ensures Forward(q, q2)
  {
    forall i | 0 <= i < |q|
      ensures EntryForward(q[i], q2[i])
    {
      assert EntryForward(q[i], q1[i]) && EntryForward(q1[i], q2[i]);
    }
  }

  ghost predicate SysForward(s: Sys, s': Sys) {
    Forward(s.queue, s'.queue) && s.history <= s'.history
  }

  lemma SysForwardTransitive(s: Sys, s1: Sys, s2: Sys)
    requires SysForward(s, s1) && SysForward(s1, s2)
    ensures SysForward(s, s2)
  {
    ForwardTransitive(s.queue, s1.queue, s2.queue);
  }

  lemma FailedRunForward(w: World, s: Sys, f1: bool, f2: bool)
    ensures SysForward(s, ProcessFailed(w, s, f1, f2).s)
  {
    var s1 := Batch(w, s, Fetch(s.queue, FailedToGetCovenantSignatures)).s;
    var s2 := Batch(w, s1, Fetch(s1.queue, Failed)).s;
    assert SysForward(s, s1) by { BatchForward(w, s, FailedToGetCovenantSignatures); }
    assert SysForward(s1, s2) by { BatchForward(w, s1, Failed); }
    SysForwardTransitive(s, s1, s2);
  }

  lemma PerformForward(w: World, s: Sys, op: Op)
    ensures SysForward(s, Perform(w, s, op))
  {
    match op {
      case AddTx(sub) =>
      case RunNew(fetched) =>
        BatchForward(w, s, Inserted);
      case RunFailed(f1, f2) =>
        FailedRunForward(w, s, f1, f2);
    }
  }

  /** From any point of any run to its end, states only move forward. */
  lemma {:induction false} ExecuteForward(w: World, s: Sys, ops: seq<Op>, k: nat)
    requires k <= |ops|
    ensures SysForward(Execute(w, s, ops[..k]), Execute(w, s, ops))
  {
    if k == |ops| {
      assert ops[..k] == ops;
    } else {
      var init := ops[..|ops| - 1];
      assert init[..k] == ops[..k];
      ExecuteForward(w, s, init, k);
      var s1 := Execute(w, s, init);
      PerformForward(w, s1, ops[|ops| - 1]);
      SysForwardTransitive(Execute(w, s, ops[..k]), s1, Execute(w, s, ops));
    }
  }

  // ---------- a head that never settles blocks the queue ----------

  /** Every attempt for this transaction ends in a critical error, whenever it is made. */
  ghost predicate AlwaysCritical(w: World, sub: Submission) {
    forall e: Entry, t: nat :: e.sub == sub ==> Decide(w, e, w.answers(t)).verdict.Critical?
  }

  /** The entry at `i` is the first new one, and every attempt for it ends critically. */
  ghost predicate StuckHead(w: World, q: Queue, i: nat) {
    && i < |q| && q[i].state == Inserted && AlwaysCritical(w, q[i].sub)
    && forall j :: 0 <= j < i ==> q[j].state != Inserted
  }

  /** New entries stay new, what was added since is new, and nothing becomes new. */
  ghost predicate NewStayNew(q: Queue, q': Queue) {
    && |q| <= |q'|
    && (forall j :: 0 <= j < |q| ==> q'[j].sub == q[j].sub && (q'[j].state == Inserted <==> q[j].state == Inserted))
    && (forall j :: |q| <= j < |q'| ==> q'[j].state == Inserted)
  }

  /** The attempt is for `i` or for an entry that is not new. */
  ghost predicate PassesBy(q: Queue, ev: Event, i: nat) {
    ev.who == i || (ev.who < |q| && q[ev.who].state != Inserted)
  }

  ghost predicate Blocked(s: Sys, s': Sys, i: nat) {
    && NewStayNew(s.queue, s'.queue) && s.history <= s'.history
    && forall t :: |s.history| <= t < |s'.history| ==> PassesBy(s.queue, s'.history[t], i)
  }

  lemma BlockedTransitive(s: Sys, s1: Sys, s2: Sys, i: nat)
    requires Blocked(s, s1, i) && Blocked(s1, s2, i)
    ensures Blocked(s, s2, i)
  {
    forall t | |s.history| <= t < |s2.history|
      ensures PassesBy(s.queue, s2.history[t], i)
    {
      if t < |s1.history| {
        assert PassesBy(s.queue, s1.history[t], i);
      } else {
        assert PassesBy(s1.queue, s2.history[t], i);
      }
    }
  }

  lemma StaysStuck(w: World, s: Sys, s': Sys, i: nat)
    requires StuckHead(w, s.queue, i) && NewStayNew(s.queue, s'.queue)
    ensures StuckHead(w, s'.queue, i)
  {
  }

  lemma HeadFirst(q: Queue, i: nat)
    requires i < |q| && q[i].state == Inserted && forall j :: 0 <= j < i ==> q[j].state != Inserted
    ensures Fetch(q, Inserted) != [] && Fetch(q, Inserted)[0] == i
  {
    FetchMeaning(q, Inserted);
    var idxs := Fetch(q, Inserted);
    assert i in idxs && idxs[0] in idxs;
  }

  lemma NewRunBlocked(w: World, s: Sys, i: nat)
    requires StuckHead(w, s.queue, i)
    ensures Blocked(s, Batch(w, s, Fetch(s.queue, Inserted)).s, i)
  {
    HeadFirst(s.queue, i);
    BatchUnfold(w, s, Fetch(s.queue, Inserted));
    StepLaw(w, s, i);
  }

  lemma OutcomeBlocked(s: Sys, st: DocState, r: Res, i: nat)
    requires st in {Failed, FailedToGetCovenantSignatures} && BatchOutcome(s, Fetch(s.queue, st), r)
    ensures Blocked(s, r.s, i)
  {
    var idxs, events := Fetch(s.queue, st), NewEvents(s, r.s);
    FetchMeaning(s.queue, st);
    OutcomeForward(s, st, r);
    forall j | 0 <= j < |s.queue|
      ensures r.s.queue[j].state == Inserted <==> s.queue[j].state == Inserted
    {
      assert EntryForward(s.queue[j], r.s.queue[j]);
      assert s.queue[j].state == Inserted ==> j !in idxs;
    }
    forall t | |s.history| <= t < |r.s.history|
      ensures PassesBy(s.queue, r.s.history[t], i)
    {
      assert r.s.history[t] == events[t - |s.history|];
      assert idxs[t - |s.history|] in idxs;
    }
  }

  lemma RetryBlocked(w: World, s: Sys, st: DocState, i: nat)
    requires st in {Failed, FailedToGetCovenantSignatures}
    ensures Blocked(s, Batch(w, s, Fetch(s.queue, st)).s, i)
  {
    FetchMeaning(s.queue, st);
    BatchLaw(w, s, Fetch(s.queue, st));
    OutcomeBlocked(s, st, Batch(w, s, Fetch(s.queue, st)), i);
  }

  lemma FailedRunBlocked(w: World, s: Sys, f1: bool, f2: bool, i: nat)
    ensures Blocked(s, ProcessFailed(w, s, f1, f2).s, i)
  {
    var s1 := Batch(w, s, Fetch(s.queue, FailedToGetCovenantSignatures)).s;
    var s2 := Batch(w, s1, Fetch(s1.queue, Failed)).s;
    assert Blocked(s, s1, i) by { RetryBlocked(w, s, FailedToGetCovenantSignatures, i); }
    assert Blocked(s1, s2, i) by { RetryBlocked(w, s1, Failed, i); }
    BlockedTransitive(s, s1, s2, i);
  }

  lemma PerformBlocked(w: World, s: Sys, op: Op, i: nat)
    requires StuckHead(w, s.queue, i)
    ensures Blocked(s, Perform(w, s, op), i)
  {
    match op {
      case AddTx(sub) =>
      case RunNew(fetched) => NewRunBlocked(w, s, i);
      case RunFailed(f1, f2) => FailedRunBlocked(w, s, f1, f2, i);
    }
  }

  /**
   If every attempt for the first new transaction ends critically, then over any sequence of operations
   from there it stays the first new one, no other new transaction and none added later is ever
   attempted, and all of them stay new.
   */
  lemma {:induction false} HeadBlocksForever(w: World, s: Sys, ops: seq<Op>, i: nat)
    requires StuckHead(w, s.queue, i)
    ensures Blocked(s, Execute(w, s, ops), i) && StuckHead(w, Execute(w, s, ops).queue, i)
  {
    if ops != [] {
      var s1 := Execute(w, s, ops[..|ops| - 1]);
      HeadBlocksForever(w, s, ops[..|ops| - 1], i);
      PerformBlocked(w, s1, ops[|ops| - 1], i);
      BlockedTransitive(s, s1, Execute(w, s, ops), i);
      StaysStuck(w, s, Execute(w, s, ops), i);
    }
  }

  // ---------- no transaction is stored twice ----------

  ghost predicate DistinctHashes(w: World, q: Queue) {
    forall i, j :: 0 <= i < j < |q| ==> w.txid(q[i].sub.body) != w.txid(q[j].sub.body)
  }

  lemma {:induction false} AddAllDistinct(w: World, q: Queue, subs: seq<Submission>)
    requires NoDuplicates(w) && DistinctHashes(w, q)
    ensures DistinctHashes(w, AddAll(w, q, subs))
    decreases |subs|
  {
    if subs != [] {
      AddAllDistinct(w, Accept(w, q, subs[0]), subs[1..]);
    }
  }

  lemma StepDistinct(w: World, s: Sys, i: nat)
    requires NoDuplicates(w) && i < |s.queue| && DistinctHashes(w, s.queue)
    ensures DistinctHashes(w, Step(w, s, i).s.queue)
  {
    var q := AddAll(w, s.queue, w.answers(|s.history|).adds);
    AddAllDistinct(w, s.queue, w.answers(|s.history|).adds);
    SameSubmissions(w, q, Step(w, s, i).s.queue);
  }

  lemma SameSubmissions(w: World, q: Queue, q': Queue)
    requires DistinctHashes(w, q) && |q'| == |q| && forall i :: 0 <= i < |q| ==> q'[i].sub == q[i].sub
    ensures DistinctHashes(w, q')
  {
  }

  lemma {:induction false} BatchDistinct(w: World, s: Sys, idxs: seq<nat>)
    requires NoDuplicates(w) && InRange(idxs, |s.queue|) && DistinctHashes(w, s.queue)
    ensures DistinctHashes(w, Batch(w, s, idxs).s.queue)
    decreases |idxs|
  {
    if idxs != [] {
      BatchUnfold(w, s, idxs);
      StepDistinct(w, s, idxs[0]);
      if Step(w, s, idxs[0]).outcome.Finished? {
        BatchDistinct(w, Step(w, s, idxs[0]).s, idxs[1..]);
      }
    }
  }

  lemma PerformDistinct(w: World, s: Sys, op: Op)
    requires NoDuplicates(w) && DistinctHashes(w, s.queue)
    ensures DistinctHashes(w, Perform(w, s, op).queue)
  {
    match op {
      case AddTx(sub) =>
      case RunNew(fetched) =>
        BatchDistinct(w, s, Fetch(s.queue, Inserted));
      case RunFailed(f1, f2) =>
        BatchDistinct(w, s, Fetch(s.queue, FailedToGetCovenantSignatures));
        var s1 := Batch(w, s, Fetch(s.queue, FailedToGetCovenantSignatures)).s;
        BatchDistinct(w, s1, Fetch(s1.queue, Failed));
    }
  }

  /** In a store that refuses known hashes no two entries share a hash, after any operations. */
  lemma {:induction false} NeverStoredTwice(w: World, ops: seq<Op>)
    requires NoDuplicates(w)
    ensures DistinctHashes(w, Execute(w, EMPTY_SYS, ops).queue)
  {
    if ops != [] {
      NeverStoredTwice(w, ops[..|ops| - 1]);
      PerformDistinct(w, Execute(w, EMPTY_SYS, ops[..|ops| - 1]), ops[|ops| - 1]);
    }
  }

  // ---------- nothing handed over is lost ----------

  /** Handed over between runs, or by others during an attempt. */
  ghost predicate HandedOver(w: World, added: set<Submission>, h: seq<Event>, sub: Submission) {
    sub in added || exists t :: 0 <= t < |h| && sub in w.answers(t).adds
  }

  /** The store holds it, or, if it refuses repeated transactions, one with its hash. */
  ghost predicate Held(w: World, q: Queue, sub: Submission) {
    exists i :: 0 <= i < |q| && if NoDuplicates(w) then w.txid(q[i].sub.body) == w.txid(sub.body) else q[i].sub == sub
  }

  /** The store holds what was handed over and nothing else. */
  ghost predicate HoldsAll(w: World, added: set<Submission>, s: Sys) {
    && (forall sub :: HandedOver(w, added, s.history, sub) ==> Held(w, s.queue, sub))
    && (forall i :: 0 <= i < |s.queue| ==> HandedOver(w, added, s.history, s.queue[i].sub))
  }

  lemma HeldAfterwards(w: World, q: Queue, q': Queue, sub: Submission)
    requires Held(w, q, sub) && |q| <= |q'| && forall j :: 0 <= j < |q| ==> q'[j].sub == q[j].sub
    ensures Held(w, q', sub)
  {
    var i :| 0 <= i < |q| && if NoDuplicates(w) then w.txid(q[i].sub.body) == w.txid(sub.body) else q[i].sub == sub;
    assert q'[i].sub == q[i].sub;
  }

  lemma ArrivedIsHeld(w: World, q: Queue, subs: seq<Submission>, q': Queue, p: nat)
    requires Arrive(w, q, subs, q') && p < |subs|
    ensures Held(w, q', subs[p])
    decreases p
  {
    var at :| ArriveAt(w, q, subs, q'[|q|..], at);
    if p in at {
      var k :| 0 <= k < |at| && at[k] == p;
      assert q'[|q| + k] == q'[|q|..][k];
    } else if j :| 0 <= j < |q| && w.txid(q[j].sub.body) == w.txid(subs[p].body) {
      assert q'[j] == q[j];
    } else {
      var k :| 0 <= k < p && w.txid(subs[k].body) == w.txid(subs[p].body);
      ArrivedIsHeld(w, q, subs, q', k);
    }
  }

  lemma ArrivedWasHandedOver(w: World, q: Queue, subs: seq<Submission>, q': Queue, i: nat)
    requires Arrive(w, q, subs, q') && |q| <= i < |q'|
    ensures q'[i].sub in subs
  {
    var at :| ArriveAt(w, q, subs, q'[|q|..], at);
    assert q'[i] == q'[|q|..][i - |q|];
  }

  /** Handed over by the end of one more attempt. */
  lemma HandedOverLater(w: World, added: set<Submission>, h: seq<Event>, h': seq<Event>, sub: Submission)
    requires |h'| == |h| + 1
    ensures HandedOver(w, added, h', sub) <==> HandedOver(w, added, h, sub) || sub in w.answers(|h|).adds
  {
  }

  lemma StepHolds(w: World, added: set<Submission>, s: Sys, i: nat)
    requires i < |s.queue| && HoldsAll(w, added, s)
    ensures HoldsAll(w, added, Step(w, s, i).s)
  {
    StepLaw(w, s, i);
    StepArrivals(w, s, i);
    StepKeeps(w, added, s, Step(w, s, i).s, i);
  }

  lemma StepKeeps(w: World, added: set<Submission>, s: Sys, s': Sys, i: nat)
    requires i < |s.queue| && HoldsAll(w, added, s)
    requires |s'.history| == |s.history| + 1 && Touches(s.queue, s'.queue, i)
    requires Arrive(w, s.queue, w.answers(|s.history|).adds, s.queue + s'.queue[|s.queue|..])
    ensures HoldsAll(w, added, s')
  {
    var adds := w.answers(|s.history|).adds;
    var q := s.queue + s'.queue[|s.queue|..];
    assert forall j :: 0 <= j < |q| ==> s'.queue[j].sub == q[j].sub;
    forall sub | HandedOver(w, added, s'.history, sub)
      ensures Held(w, s'.queue, sub)
    {
      HandedOverLater(w, added, s.history, s'.history, sub);
      if sub in adds {
        var p: nat :| p < |adds| && adds[p] == sub;
        ArrivedIsHeld(w, s.queue, adds, q, p);
        HeldAfterwards(w, q, s'.queue, sub);
      } else {
        HeldAfterwards(w, s.queue, s'.queue, sub);
      }
    }
    forall j | 0 <= j < |s'.queue|
      ensures HandedOver(w, added, s'.history, s'.queue[j].sub)
    {
      HandedOverLater(w, added, s.history, s'.history, s'.queue[j].sub);
      if j >= |s.queue| {
        ArrivedWasHandedOver(w, s.queue, adds, q, j);
      }
    }
  }

  lemma {:induction false} BatchHolds(w: World, added: set<Submission>, s: Sys, idxs: seq<nat>)
    requires InRange(idxs, |s.queue|) && HoldsAll(w, added, s)
    ensures HoldsAll(w, added, Batch(w, s, idxs).s)
    decreases |idxs|
  {
    if idxs != [] {
      BatchUnfold(w, s, idxs);
      StepHolds(w, added, s, idxs[0]);
      if Step(w, s, idxs[0]).outcome.Finished? {
        BatchHolds(w, added, Step(w, s, idxs[0]).s, idxs[1..]);
      }
    }
  }

  lemma AddArrives(w: World, s: Sys, sub: Submission)
    ensures Arrive(w, s.queue, [sub], Perform(w, s, AddTx(sub)).queue)
    ensures Perform(w, s, AddTx(sub)).history == s.history
  {
    AddAllMeaning(w, s.queue, [sub]);
    assert [sub][1..] == [];
    assert AddAll(w, s.queue, [sub]) == AddAll(w, Accept(w, s.queue, sub), []);
  }

  lemma OneArrives(w: World, added: set<Submission>, s: Sys, sub: Submission, s': Sys)
    requires HoldsAll(w, added, s) && s'.history == s.history && Arrive(w, s.queue, [sub], s'.queue)
    ensures HoldsAll(w, added + {sub}, s')
  {
    ArrivedIsHeld(w, s.queue, [sub], s'.queue, 0);
    forall other | HandedOver(w, added + {sub}, s'.history, other)
      ensures Held(w, s'.queue, other)
    {
      if other != sub {
        assert HandedOver(w, added, s.history, other);
        HeldAfterwards(w, s.queue, s'.queue, other);
      }
    }
    forall j | 0 <= j < |s'.queue|
      ensures HandedOver(w, added + {sub}, s'.history, s'.queue[j].sub)
    {
      if j >= |s.queue| {
        ArrivedWasHandedOver(w, s.queue, [sub], s'.queue, j);
      } else {
        assert HandedOver(w, added, s.history, s.queue[j].sub);
      }
    }
  }

  lemma AddHolds(w: World, added: set<Submission>, s: Sys, sub: Submission)
    requires HoldsAll(w, added, s)
    ensures HoldsAll(w, added + {sub}, Perform(w, s, AddTx(sub)))
  {
    AddArrives(w, s, sub);
    OneArrives(w, added, s, sub, Perform(w, s, AddTx(sub)));
  }

  /** The transactions added between runs. */
  function Added(ops: seq<Op>): set<Submission> {
    set k | 0 <= k < |ops| && ops[k].AddTx? :: ops[k].sub
  }

  lemma AddedLast(ops: seq<Op>)
    requires ops != []
    ensures var last := ops[|ops| - 1];
      Added(ops) == Added(ops[..|ops| - 1]) + if last.AddTx? then {last.sub} else {}
  {
  }

  lemma PerformHolds(w: World, added: set<Submission>, s: Sys, op: Op)
    requires HoldsAll(w, added, s)
    ensures HoldsAll(w, added + (if op.AddTx? then {op.sub} else {}), Perform(w, s, op))
  {
    assert added + {} == added;
    match op {
      case AddTx(sub) => AddHolds(w, added, s, sub);
      case RunNew(fetched) => BatchHolds(w, added, s, Fetch(s.queue, Inserted));
      case RunFailed(f1, f2) =>
        BatchHolds(w, added, s, Fetch(s.queue, FailedToGetCovenantSignatures));
        var s1 := Batch(w, s, Fetch(s.queue, FailedToGetCovenantSignatures)).s;
        BatchHolds(w, added, s1, Fetch(s1.queue, Failed));
    }
  }

  /**
   After any operations the store holds everything that was handed over, between runs or by others during
   an attempt, and nothing else; a store that refuses repeated transactions holds one with the same hash.
   */
  lemma {:induction false} NothingIsLost(w: World, ops: seq<Op>)
    ensures HoldsAll(w, Added(ops), Execute(w, EMPTY_SYS, ops))
  {
    if ops != [] {
      NothingIsLost(w, ops[..|ops| - 1]);
      AddedLast(ops);
      PerformHolds(w, Added(ops[..|ops| - 1]), Execute(w, EMPTY_SYS, ops[..|ops| - 1]), ops[|ops| - 1]);
    }
  }

  // ---------- every attempt in a run was decided as `Decide` says ----------

  /** The event is the decision for its transaction under the answers given at that time. */
  ghost predicate Decided(w: World, ev: Event, t: nat) {
    exists e: Entry ::
      && e.sub == ev.sub
      && Decide(w, e, w.answers(t)) == Decision(ev.verdict, ev.wit)
      && ev.written == (!ev.verdict.Critical? && WriteTaken(w, t))
  }

  ghost predicate Chronicle(w: World, s: Sys) {
    forall t :: 0 <= t < |s.history| ==> Recounts(w, s.queue, s.history[t], t)
  }

  ghost predicate Recounts(w: World, q: Queue, ev: Event, t: nat) {
    && ev.who < |q| && ev.sub == q[ev.who].sub
    && Decided(w, ev, t)
  }

  lemma StepChronicle(w: World, s: Sys, i: nat)
    requires i < |s.queue| && Chronicle(w, s)
    ensures Chronicle(w, Step(w, s, i).s)
  {
    StepLaw(w, s, i);
    var s' := Step(w, s, i).s;
    var n := |s.history|;
    assert Decided(w, s'.history[n], n) by {
      assert Decide(w, s.queue[i], w.answers(n)) == Decision(s'.history[n].verdict, s'.history[n].wit);
    }
    forall t | 0 <= t < |s'.history|
      ensures Recounts(w, s'.queue, s'.history[t], t)
    {
      if t < n {
        assert Recounts(w, s.queue, s.history[t], t);
      }
    }
  }

  lemma {:induction false} BatchChronicle(w: World, s: Sys, idxs: seq<nat>)
    requires InRange(idxs, |s.queue|) && Chronicle(w, s)
    ensures Chronicle(w, Batch(w, s, idxs).s)
    decreases |idxs|
  {
    if idxs != [] {
      BatchUnfold(w, s, idxs);
      StepChronicle(w, s, idxs[0]);
      if Step(w, s, idxs[0]).outcome.Finished? {
        BatchChronicle(w, Step(w, s, idxs[0]).s, idxs[1..]);
      }
    }
  }

  lemma PerformChronicle(w: World, s: Sys, op: Op)
    requires Chronicle(w, s)
    ensures Chronicle(w, Perform(w, s, op))
  {
    match op {
      case AddTx(sub) =>
        assert forall t :: 0 <= t < |s.history| ==> Recounts(w, s.queue, s.history[t], t);
      case RunNew(fetched) =>
        BatchChronicle(w, s, Fetch(s.queue, Inserted));
      case RunFailed(f1, f2) =>
        BatchChronicle(w, s, Fetch(s.queue, FailedToGetCovenantSignatures));
        var s1 := Batch(w, s, Fetch(s.queue, FailedToGetCovenantSignatures)).s;
        BatchChronicle(w, s1, Fetch(s1.queue, Failed));
    }
  }

  lemma {:induction false} ExecuteChronicle(w: World, ops: seq<Op>)
    ensures Chronicle(w, Execute(w, EMPTY_SYS, ops))
  {
    if ops != [] {
      ExecuteChronicle(w, ops[..|ops| - 1]);
      PerformChronicle(w, Execute(w, EMPTY_SYS, ops[..|ops| - 1]), ops[|ops| - 1]);
    }
  }

  // ---------- at most one successful broadcast ----------

  /** How often the transaction at position `i` was sent successfully. */
  function Sends(h: seq<Event>, i: nat): nat {
    if h == [] then 0
    else
      var last := h[|h| - 1];
      Sends(h[..|h| - 1], i) + (if last.who == i && last.verdict == SendOk then 1 else 0)
  }

  lemma {:induction false} SendsConcat(a: seq<Event>, b: seq<Event>, i: nat)
    ensures Sends(a + b, i) == Sends(a, i) + Sends(b, i)
  {
    if b == [] {
      assert a + b == a;
    } else {
      SendsConcat(a, b[..|b| - 1], i);
      assert (a + b)[..|a + b| - 1] == a + b[..|b| - 1];
    }
  }

  lemma {:induction false} SendsWitness(h: seq<Event>, i: nat)
    ensures Sends(h, i) > 0 <==> exists t :: 0 <= t < |h| && h[t].who == i && h[t].verdict == SendOk
  {
    if h != [] {
      var n := |h| - 1;
      SendsWitness(h[..n], i);
      if t :| 0 <= t < |h| && h[t].who == i && h[t].verdict == SendOk {
        if t < n {
          assert h[..n][t] == h[t];
        }
      }
    }
  }

  lemma {:induction false} SendsOnce(events: seq<Event>, idxs: seq<nat>, i: nat)
    requires |events| == |idxs| && NoRepeated(idxs)
    requires forall k :: 0 <= k < |events| ==> events[k].who == idxs[k]
    ensures i !in idxs ==> Sends(events, i) == 0
    ensures forall k :: 0 <= k < |idxs| && idxs[k] == i ==> Sends(events, i) == if events[k].verdict == SendOk then 1 else 0
  {
    if events != [] {
      var n := |events| - 1;
      SendsOnce(events[..n], idxs[..n], i);
      assert i in idxs <==> i in idxs[..n] || i == idxs[n];
      if i == idxs[n] {
        assert i !in idxs[..n];
      } else {
        assert forall k :: 0 <= k < n ==> idxs[..n][k] == idxs[k];
      }
    }
  }

  /** A transaction was broadcast successfully exactly once if it is in `Send`, and otherwise never. */
  ghost predicate SentExactly(s: Sys) {
    forall i :: 0 <= i < |s.queue| ==> SentAsRecorded(s.queue[i].state, Sends(s.history, i))
  }

  predicate SentAsRecorded(st: DocState, sends: nat) {
    sends == if st == DocState.Send then 1 else 0
  }

  ghost predicate NoStrangers(s: Sys) {
    forall t :: 0 <= t < |s.history| ==> s.history[t].who < |s.queue|
  }

  /** With a store that does not fail, every decision that is not critical is recorded. */
  ghost predicate AllRecorded(events: seq<Event>) {
    forall k :: 0 <= k < |events| ==> (events[k].written <==> !events[k].verdict.Critical?)
  }

  lemma StepRecords(w: World, s: Sys, i: nat)
    requires w.store.InMemory? && i < |s.queue|
    ensures var r := Step(w, s, i);
      && |r.s.history| == |s.history| + 1 && s.history <= r.s.history
      && AllRecorded(NewEvents(s, r.s))
  {
    StepLaw(w, s, i);
  }

  lemma AllRecordedPrepend(s: Sys, s1: Sys, s2: Sys)
    requires s.history <= s1.history <= s2.history
    requires AllRecorded(NewEvents(s, s1)) && AllRecorded(NewEvents(s1, s2))
    ensures AllRecorded(NewEvents(s, s2))
  {
    var a, b := NewEvents(s, s1), NewEvents(s1, s2);
    forall k | 0 <= k < |NewEvents(s, s2)|
      ensures NewEvents(s, s2)[k] == if k < |a| then a[k] else b[k - |a|]
    {
    }
  }

  lemma {:induction false} BatchRecords(w: World, s: Sys, idxs: seq<nat>)
    requires w.store.InMemory? && InRange(idxs, |s.queue|)
    ensures s.history <= Batch(w, s, idxs).s.history
    ensures AllRecorded(NewEvents(s, Batch(w, s, idxs).s))
    decreases |idxs|
  {
    if idxs != [] {
      BatchUnfold(w, s, idxs);
      StepRecords(w, s, idxs[0]);
      var first := Step(w, s, idxs[0]);
      if first.outcome.Finished? {
        BatchRecords(w, first.s, idxs[1..]);
        AllRecordedPrepend(s, first.s, Batch(w, s, idxs).s);
      }
    }
  }

  lemma SendsOfBatch(idxs: seq<nat>, events: seq<Event>, finished: bool, i: nat)
    requires Attempted(idxs, events, finished) && NoRepeated(idxs)
    ensures i !in idxs[..|events|] ==> Sends(events, i) == 0
    ensures forall k :: 0 <= k < |events| && idxs[k] == i ==> Sends(events, i) == if events[k].verdict == SendOk then 1 else 0
  {
    SendsOnce(events, idxs[..|events|], i);
    forall k | 0 <= k < |events| && idxs[k] == i
      ensures Sends(events, i) == if events[k].verdict == SendOk then 1 else 0
    {
      assert idxs[..|events|][k] == i;
    }
  }

  lemma NewSends(s: Sys, s': Sys, i: nat)
    requires s.history <= s'.history
    ensures Sends(s'.history, i) == Sends(s.history, i) + Sends(NewEvents(s, s'), i)
  {
    SendsConcat(s.history, NewEvents(s, s'), i);
    assert s'.history == s.history + NewEvents(s, s');
  }

  lemma EntrySentExactly(s: Sys, idxs: seq<nat>, r: Res, i: nat)
    requires BatchOutcome(s, idxs, r) && NoRepeated(idxs) && AllRecorded(NewEvents(s, r.s))
    requires i < |s.queue| && SentAsRecorded(s.queue[i].state, Sends(s.history, i))
    requires i in idxs ==> s.queue[i].state != DocState.Send
    ensures SentAsRecorded(r.s.queue[i].state, Sends(r.s.history, i))
  {
    var events := NewEvents(s, r.s);
    NewSends(s, r.s, i);
    SendsOfBatch(idxs, events, r.outcome.Finished?, i);
    if i in idxs[..|events|] {
      var k :| 0 <= k < |events| && idxs[k] == i;
      assert Recorded(s.queue[idxs[k]].state, r.s.queue[idxs[k]].state, events[k]);
    }
  }

  lemma NewcomerNotSent(s: Sys, idxs: seq<nat>, r: Res, i: nat)
    requires BatchOutcome(s, idxs, r) && NoRepeated(idxs) && NoStrangers(s)
    requires |s.queue| <= i < |r.s.queue|
    ensures SentAsRecorded(r.s.queue[i].state, Sends(r.s.history, i))
  {
    var events := NewEvents(s, r.s);
    NewSends(s, r.s, i);
    SendsOfBatch(idxs, events, r.outcome.Finished?, i);
    SendsWitness(s.history, i);
  }

  lemma OutcomeNoStrangers(s: Sys, idxs: seq<nat>, r: Res)
    requires BatchOutcome(s, idxs, r) && NoStrangers(s)
    ensures NoStrangers(r.s)
  {
    var events := NewEvents(s, r.s);
    forall t | |s.history| <= t < |r.s.history|
      ensures r.s.history[t].who < |r.s.queue|
    {
      assert events[t - |s.history|].who == idxs[t - |s.history|];
    }
  }

  lemma OutcomeSentExactly(s: Sys, st: DocState, r: Res)
    requires !Final(st) && BatchOutcome(s, Fetch(s.queue, st), r) && AllRecorded(NewEvents(s, r.s))
    requires SentExactly(s) && NoStrangers(s)
    ensures SentExactly(r.s) && NoStrangers(r.s)
  {
    var idxs := Fetch(s.queue, st);
    FetchMeaning(s.queue, st);
    OutcomeNoStrangers(s, idxs, r);
    forall i | 0 <= i < |r.s.queue|
      ensures SentAsRecorded(r.s.queue[i].state, Sends(r.s.history, i))
    {
      if i < |s.queue| {
        assert SentAsRecorded(s.queue[i].state, Sends(s.history, i));
        EntrySentExactly(s, idxs, r, i);
      } else {
        NewcomerNotSent(s, idxs, r, i);
      }
    }
  }

  lemma BatchSentExactly(w: World, s: Sys, st: DocState)
    requires w.store.InMemory? && !Final(st) && SentExactly(s) && NoStrangers(s)
    ensures SentExactly(Batch(w, s, Fetch(s.queue, st)).s) && NoStrangers(Batch(w, s, Fetch(s.queue, st)).s)
  {
    FetchMeaning(s.queue, st);
    BatchLaw(w, s, Fetch(s.queue, st));
    BatchRecords(w, s, Fetch(s.queue, st));
    OutcomeSentExactly(s, st, Batch(w, s, Fetch(s.queue, st)));
  }

  lemma AddSentExactly(w: World, s: Sys, sub: Submission)
    requires SentExactly(s) && NoStrangers(s)
    ensures SentExactly(Perform(w, s, AddTx(sub))) && NoStrangers(Perform(w, s, AddTx(sub)))
  {
    SendsWitness(s.history, |s.queue|);
    assert forall i :: 0 <= i < |s.queue| ==> SentAsRecorded(s.queue[i].state, Sends(s.history, i));
  }

  lemma FailedRunSentExactly(w: World, s: Sys, f1: bool, f2: bool)
    requires w.store.InMemory? && SentExactly(s) && NoStrangers(s)
    ensures SentExactly(ProcessFailed(w, s, f1, f2).s) && NoStrangers(ProcessFailed(w, s, f1, f2).s)
  {
    BatchSentExactly(w, s, FailedToGetCovenantSignatures);
    BatchSentExactly(w, Batch(w, s, Fetch(s.queue, FailedToGetCovenantSignatures)).s, Failed);
  }

  lemma PerformSentExactly(w: World, s: Sys, op: Op)
    requires w.store.InMemory? && SentExactly(s) && NoStrangers(s)
    ensures SentExactly(Perform(w, s, op)) && NoStrangers(Perform(w, s, op))
  {
    match op {
      case AddTx(sub) => AddSentExactly(w, s, sub);
      case RunNew(fetched) => BatchSentExactly(w, s, Inserted);
      case RunFailed(f1, f2) => FailedRunSentExactly(w, s, f1, f2);
    }
  }

  /**
   With the in-memory store, after any sequence of operations: a stored transaction has been broadcast
   successfully exactly once if it is in `Send`, and otherwise never.
   */
  lemma {:induction false} BroadcastAtMostOnce(w: World, ops: seq<Op>)
    requires w.store.InMemory?
    ensures SentExactly(Execute(w, EMPTY_SYS, ops))
    ensures NoStrangers(Execute(w, EMPTY_SYS, ops))
  {
    if ops != [] {
      BroadcastAtMostOnce(w, ops[..|ops| - 1]);
      PerformSentExactly(w, Execute(w, EMPTY_SYS, ops[..|ops| - 1]), ops[|ops| - 1]);
    }
  }
}
