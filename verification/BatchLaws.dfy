/**
 What one attempt, one batch and one run do to the queue: which entries they touch, where a critical
 exit leaves the rest of the batch, and how often each transaction is attempted.
 */
module BatchLaws {
  import opened Bytes
  import opened Types
  import opened Wrappers
  import opened Collection
  import opened PipelineModel
  import opened Requirements

  // ---------- positions of the entries in a state ----------

  ghost predicate Increasing(s: seq<nat>) {
    forall i, j :: 0 <= i < j < |s| ==> s[i] < s[j]
  }

  /** Exactly the positions of the entries in state `st`, in order of insertion. */
  lemma {:induction false} FetchMeaning(q: Queue, st: DocState)
    ensures Increasing(Fetch(q, st))
    ensures forall i: nat :: i in Fetch(q, st) <==> i < |q| && q[i].state == st
  {
    if q != [] {
      FetchMeaning(q[..|q| - 1], st);
    }
  }

  lemma {:induction false} IncreasingUnique(s: seq<nat>, t: seq<nat>)
    requires Increasing(s) && Increasing(t)
    requires forall i: nat :: i in s <==> i in t
    ensures s == t
  {
    assert s != [] ==> s[0] in s;
    assert t != [] ==> t[0] in t;
    if s != [] && t != [] {
      var a, c := s[|s| - 1], t[|t| - 1];
      assert a in t && c in s;
      assert a == c;
      var s', t' := s[..|s| - 1], t[..|t| - 1];
      forall i: nat
        ensures i in s' <==> i in t'
      {
        assert i in s' <==> i in s && i != a;
        assert i in t' <==> i in t && i != c;
      }
      IncreasingUnique(s', t');
    }
  }

  /** A list of positions is what a fetch returns if and only if it is increasing and complete. */
  lemma FetchUnique(q: Queue, st: DocState, idxs: seq<nat>)
    ensures idxs == Fetch(q, st)
            <==> Increasing(idxs) && forall i: nat :: i in idxs <==> i < |q| && q[i].state == st
  {
    FetchMeaning(q, st);
    if Increasing(idxs) && forall i: nat :: i in idxs <==> i < |q| && q[i].state == st {
      IncreasingUnique(idxs, Fetch(q, st));
    }
  }

  // ---------- one attempt ----------

  /** Entries other than `i` keep everything, `i` keeps what was submitted; newcomers are `Inserted`. */
  ghost predicate Touches(q: Queue, q': Queue, i: nat) {
    && |q| <= |q'|
    && (forall j :: 0 <= j < |q| && j != i ==> q'[j] == q[j])
    && (i < |q| ==> q'[i].sub == q[i].sub)
    && (forall j :: |q| <= j < |q'| ==> q'[j].state == Inserted)
  }

  /** The state a verdict is recorded as; a critical error is not recorded. */
  predicate RecordedAs(v: Verdict, st: DocState) {
    match v
    case Critical(_) => false
    case NoQuorum => st == FailedToGetCovenantSignatures
    case AlreadySpent => st == InputAlreadySpent
    case SendFailed => st == Failed
    case SendOk => st == DocState.Send
  }

  // What becomes of transactions that others hand over meanwhile.

  /** The store has the hash of the p-th of them already, or gets it from an earlier one. */
  ghost predicate Repeated(w: World, q: Queue, subs: seq<Submission>, p: nat)
    requires p < |subs|
  {
    || (exists j :: 0 <= j < |q| && w.txid(q[j].sub.body) == w.txid(subs[p].body))
    || (exists k :: 0 <= k < p && w.txid(subs[k].body) == w.txid(subs[p].body))
  }

  /** The newcomers are the transactions at the increasing positions `at`, each new and as it was handed
      over: all of them, unless the store refuses repeated ones. */
  ghost predicate ArriveAt(w: World, q: Queue, subs: seq<Submission>, news: Queue, at: seq<nat>) {
    && |at| == |news| && Increasing(at)
    && (forall k :: 0 <= k < |at| ==> at[k] < |subs| && news[k] == Entry(subs[at[k]], subs[at[k]].attached, Inserted))
    && forall p: nat :: p < |subs| ==> (p in at <==> !(NoDuplicates(w) && Repeated(w, q, subs, p)))
  }

  ghost predicate Arrive(w: World, q: Queue, subs: seq<Submission>, q': Queue) {
    q <= q' && exists at :: ArriveAt(w, q, subs, q'[|q|..], at)
  }

  lemma RepeatedAfterOne(w: World, q: Queue, subs: seq<Submission>, q': Queue, p: nat)
    requires 0 < p < |subs| && NoDuplicates(w)
    requires q' == if Repeated(w, q, subs, 0) then q else q + [Entry(subs[0], subs[0].attached, Inserted)]
    ensures Repeated(w, q', subs[1..], p - 1) <==> Repeated(w, q, subs, p)
  {
    var h := w.txid(subs[p].body);
    if Repeated(w, q, subs, p) {
      if j :| 0 <= j < |q| && w.txid(q[j].sub.body) == h {
        assert q'[j] == q[j];
      } else {
        var k :| 0 <= k < p && w.txid(subs[k].body) == h;
        if k > 0 {
          assert subs[1..][k - 1] == subs[k];
        } else {
          assert !Repeated(w, q, subs, 0);
          assert q'[|q|].sub == subs[0];
        }
      }
    }
    if Repeated(w, q', subs[1..], p - 1) {
      if k :| 0 <= k < p - 1 && w.txid(subs[1..][k].body) == h {
        assert subs[k + 1] == subs[1..][k];
      }
    }
  }

  function OneUp(at: seq<nat>): (up: seq<nat>)
    ensures |up| == |at| && forall k :: 0 <= k < |at| ==> up[k] == at[k] + 1
    ensures forall p: nat :: p in up <==> p > 0 && p - 1 in at
  {
    var up := seq(|at|, k requires 0 <= k < |at| => at[k] + 1);
    assert forall k :: 0 <= k < |at| ==> up[k] == at[k] + 1 && up[k] in up;
    up
  }

  lemma AcceptMeaning(w: World, q: Queue, subs: seq<Submission>)
    requires subs != []
    ensures Accept(w, q, subs[0])
            == q + if NoDuplicates(w) && Repeated(w, q, subs, 0) then [] else [Entry(subs[0], subs[0].attached, Inserted)]
  {
  }

  /** The positions that arrive: the first unless it is refused, and those of the rest. */
  lemma PositionsOneMore(w: World, q: Queue, subs: seq<Submission>, q1: Queue, at: seq<nat>, at': seq<nat>, p: nat)
    requires subs != [] && p < |subs|
    requires q1 == q + if NoDuplicates(w) && Repeated(w, q, subs, 0) then [] else [Entry(subs[0], subs[0].attached, Inserted)]
    requires forall r: nat :: r < |subs| - 1 ==> (r in at <==> !(NoDuplicates(w) && Repeated(w, q1, subs[1..], r)))
    requires at' == (if NoDuplicates(w) && Repeated(w, q, subs, 0) then [] else [0]) + OneUp(at)
    ensures p in at' <==> !(NoDuplicates(w) && Repeated(w, q, subs, p))
  {
    if p > 0 && NoDuplicates(w) {
      RepeatedAfterOne(w, q, subs, q1, p);
    }
  }

  lemma NewsOneMore(subs: seq<Submission>, refused: bool, news: Queue, at: seq<nat>)
    requires subs != [] && |at| == |news| && Increasing(at)
    requires forall k :: 0 <= k < |at| ==> at[k] < |subs| - 1 && news[k] == Entry(subs[1..][at[k]], subs[1..][at[k]].attached, Inserted)
    ensures var at' := (if refused then [] else [0]) + OneUp(at);
      var news' := (if refused then [] else [Entry(subs[0], subs[0].attached, Inserted)]) + news;
      && |at'| == |news'| && Increasing(at')
      && forall k :: 0 <= k < |at'| ==> at'[k] < |subs| && news'[k] == Entry(subs[at'[k]], subs[at'[k]].attached, Inserted)
  {
    assert forall k :: 0 <= k < |at| ==> subs[1..][at[k]] == subs[at[k] + 1];
  }

  lemma ArriveOneMore(w: World, q: Queue, subs: seq<Submission>, q1: Queue, news: Queue, at: seq<nat>) returns (at': seq<nat>)
    requires subs != [] && q1 == Accept(w, q, subs[0])
    requires ArriveAt(w, q1, subs[1..], news, at)
    ensures q <= q1 && ArriveAt(w, q, subs, q1[|q|..] + news, at')
  {
    AcceptMeaning(w, q, subs);
    var refused := NoDuplicates(w) && Repeated(w, q, subs, 0);
    at' := (if refused then [] else [0]) + OneUp(at);
    NewsOneMore(subs, refused, news, at);
    assert q1[|q|..] == if refused then [] else [Entry(subs[0], subs[0].attached, Inserted)];
    forall p: nat | p < |subs|
      ensures p in at' <==> !(NoDuplicates(w) && Repeated(w, q, subs, p))
    {
      PositionsOneMore(w, q, subs, q1, at, at', p);
    }
  }

  /** All transactions handed over meanwhile arrive, in their order, but for repeated ones in a store that
      refuses those. */
  lemma {:induction false} AddAllMeaning(w: World, q: Queue, subs: seq<Submission>)
    ensures Arrive(w, q, subs, AddAll(w, q, subs))
    decreases |subs|
  {
    if subs == [] {
      assert ArriveAt(w, q, subs, [], []);
      assert q[|q|..] == [];
    } else {
      var q1 := Accept(w, q, subs[0]);
      AddAllMeaning(w, q1, subs[1..]);
      var q' := AddAll(w, q, subs);
      var at :| ArriveAt(w, q1, subs[1..], q'[|q1|..], at);
      var at' := ArriveOneMore(w, q, subs, q1, q'[|q1|..], at);
      assert q'[|q|..] == q1[|q|..] + q'[|q1|..];
    }
  }

  /** One attempt: the decision for the entry, the record of it, what is written, and who arrives. */
  lemma StepLaw(w: World, s: Sys, i: nat)
    requires i < |s.queue|
    ensures var r := Step(w, s, i);
      var a := w.answers(|s.history|);
      var d := Decide(w, s.queue[i], a);
      var written := !d.verdict.Critical? && WriteTaken(w, |s.history|);
      && r.s.history == s.history + [Event(i, s.queue[i].sub, d.verdict, d.wit, written)]
      && Touches(s.queue, r.s.queue, i)
      && r.s.queue[i].wit == d.wit
      && (if written then RecordedAs(d.verdict, r.s.queue[i].state) else r.s.queue[i].state == s.queue[i].state)
      && r.outcome == (if d.verdict.Critical? then StoppedAt(d.verdict.why) else if written then Finished else StoreWriteFailed)
      && (a.adds == [] ==> |r.s.queue| == |s.queue|)
  {
    var q := AddAll(w, s.queue, w.answers(|s.history|).adds);
    assert q[..|s.queue|] == s.queue;
    assert forall j :: 0 <= j < |s.queue| ==> q[j] == q[..|s.queue|][j];
  }

  /** Those who arrive during an attempt are behind everyone who was there. */
  lemma StepArrivals(w: World, s: Sys, i: nat)
    requires i < |s.queue|
    ensures var q' := Step(w, s, i).s.queue;
      |s.queue| <= |q'| && Arrive(w, s.queue, w.answers(|s.history|).adds, s.queue + q'[|s.queue|..])
  {
    var q := AddAll(w, s.queue, w.answers(|s.history|).adds);
    AddAllMeaning(w, s.queue, w.answers(|s.history|).adds);
    assert q == s.queue + Step(w, s, i).s.queue[|s.queue|..] by {
      assert q[..|s.queue|] == s.queue;
    }
  }

  // ---------- batches ----------

  ghost predicate NoRepeated(idxs: seq<nat>) {
    forall j, k :: 0 <= j < k < |idxs| ==> idxs[j] != idxs[k]
  }

  /** The events added between two states. */
  function NewEvents(s: Sys, s': Sys): seq<Event>
    requires |s.history| <= |s'.history|
  {
    s'.history[|s.history|..]
  }

  /** The attempts of a batch are its transactions from the front; all but the last of a stopped batch
      were settled, that is, decided without a critical error and recorded. */
  ghost predicate Attempted(idxs: seq<nat>, events: seq<Event>, finished: bool) {
    && |events| <= |idxs|
    && (finished ==> |events| == |idxs|)
    && (!finished ==> events != [])
    && (forall k :: 0 <= k < |events| ==> events[k].who == idxs[k])
    && (forall k :: 0 <= k < |events| && events[k].written ==> !events[k].verdict.Critical?)
    && (forall k :: 0 <= k < |events| ==> (events[k].written <==> finished || k < |events| - 1))
  }

  /** Each attempted entry has the state of its attempt, or its old one if that was not settled;
      all other old entries are as they were. */
  ghost predicate Effect(q: Queue, q': Queue, idxs: seq<nat>, events: seq<Event>)
    requires |events| <= |idxs| && InRange(idxs, |q|)
  {
    && |q| <= |q'|
    && (forall j :: 0 <= j < |q| ==> q'[j].sub == q[j].sub)
    && (forall j :: 0 <= j < |q| && j !in idxs[..|events|] ==> q'[j] == q[j])
    && (forall j :: |q| <= j < |q'| ==> q'[j].state == Inserted)
    && (forall k :: 0 <= k < |events| ==> Recorded(q[idxs[k]].state, q'[idxs[k]].state, events[k]))
  }

  ghost predicate Recorded(before: DocState, after: DocState, ev: Event) {
    if ev.written then RecordedAs(ev.verdict, after) else after == before
  }

  lemma EffectPrepend(q: Queue, q1: Queue, q2: Queue, idxs: seq<nat>, ev: Event, events: seq<Event>)
    requires idxs != [] && InRange(idxs, |q|) && NoRepeated(idxs) && |events| < |idxs|
    requires Touches(q, q1, idxs[0]) && Recorded(q[idxs[0]].state, q1[idxs[0]].state, ev)
    requires InRange(idxs[1..], |q1|) && Effect(q1, q2, idxs[1..], events)
    ensures Effect(q, q2, idxs, [ev] + events)
  {
    var rest := idxs[1..];
    var done := rest[..|events|];
    assert idxs[..|events| + 1] == [idxs[0]] + done;
    assert idxs[0] !in done;
    forall k | 0 <= k < |events| + 1
      ensures Recorded(q[idxs[k]].state, q2[idxs[k]].state, ([ev] + events)[k])
    {
      if k > 0 {
        assert idxs[k] == rest[k - 1];
        assert q1[idxs[k]] == q[idxs[k]];
      }
    }
    forall j | |q| <= j < |q2|
      ensures q2[j].state == Inserted
    {
      if j < |q1| {
        assert j !in done by {
          assert forall k :: 0 <= k < |done| ==> done[k] == idxs[k + 1];
        }
      }
    }
  }

  lemma AttemptedPrepend(idxs: seq<nat>, ev: Event, events: seq<Event>, finished: bool)
    requires idxs != [] && ev.who == idxs[0] && ev.written && !ev.verdict.Critical?
    requires Attempted(idxs[1..], events, finished)
    ensures Attempted(idxs, [ev] + events, finished)
  {
    forall k | 0 <= k < |events| + 1
      ensures var all := [ev] + events;
        all[k].who == idxs[k] && (all[k].written <==> finished || k < |events|)
    {
      if k > 0 {
        assert ([ev] + events)[k] == events[k - 1];
      }
    }
  }

  lemma BatchGlue(s: Sys, s1: Sys, s2: Sys, idxs: seq<nat>, finished: bool)
    requires idxs != [] && InRange(idxs, |s.queue|) && NoRepeated(idxs)
    requires |s1.history| == |s.history| + 1 && s.history <= s1.history <= s2.history
    requires Touches(s.queue, s1.queue, idxs[0])
    requires var ev := s1.history[|s.history|];
      && ev.who == idxs[0] && ev.written && !ev.verdict.Critical?
      && Recorded(s.queue[idxs[0]].state, s1.queue[idxs[0]].state, ev)
    requires Attempted(idxs[1..], NewEvents(s1, s2), finished)
    requires Effect(s1.queue, s2.queue, idxs[1..], NewEvents(s1, s2))
    ensures Attempted(idxs, NewEvents(s, s2), finished)
    ensures Effect(s.queue, s2.queue, idxs, NewEvents(s, s2))
    ensures s.history <= s2.history
  {
    var ev := s1.history[|s.history|];
    var events := NewEvents(s1, s2);
    assert NewEvents(s, s2) == [ev] + events by {
      assert s2.history[|s.history|] == s1.history[|s.history|];
    }
    AttemptedPrepend(idxs, ev, events, finished);
    EffectPrepend(s.queue, s1.queue, s2.queue, idxs, ev, events);
  }

  /** What one attempt does, without how it was decided. */
  ghost predicate StepEffect(s: Sys, i: nat, r: Res)
    requires i < |s.queue|
  {
    && |r.s.history| == |s.history| + 1 && s.history <= r.s.history
    && Touches(s.queue, r.s.queue, i)
    && var ev := r.s.history[|s.history|];
    && ev.who == i && ev.sub == s.queue[i].sub
    && (ev.written ==> !ev.verdict.Critical?)
    && (ev.written <==> r.outcome.Finished?)
    && Recorded(s.queue[i].state, r.s.queue[i].state, ev)
  }

  lemma OneStepBatch(s: Sys, idxs: seq<nat>, r: Res)
    requires idxs != [] && InRange(idxs, |s.queue|)
    requires StepEffect(s, idxs[0], r) && !r.outcome.Finished?
    ensures Attempted(idxs, NewEvents(s, r.s), false)
    ensures Effect(s.queue, r.s.queue, idxs, NewEvents(s, r.s))
  {
    assert NewEvents(s, r.s) == [r.s.history[|s.history|]];
    assert idxs[..1] == [idxs[0]];
  }

  lemma BatchUnfold(w: World, s: Sys, idxs: seq<nat>)
    requires idxs != [] && InRange(idxs, |s.queue|)
    ensures var r := Step(w, s, idxs[0]);
      && StepEffect(s, idxs[0], r)
      && InRange(idxs[1..], |r.s.queue|)
      && Batch(w, s, idxs) == if r.outcome.Finished? then Batch(w, r.s, idxs[1..]) else r
  {
    StepLaw(w, s, idxs[0]);
  }

  /** Which transactions of a batch were attempted and what became of every entry. */
  ghost predicate BatchOutcome(s: Sys, idxs: seq<nat>, r: Res) {
    && InRange(idxs, |s.queue|)
    && s.history <= r.s.history
    && Attempted(idxs, NewEvents(s, r.s), r.outcome.Finished?)
    && Effect(s.queue, r.s.queue, idxs, NewEvents(s, r.s))
  }

  lemma EmptyOutcome(s: Sys)
    ensures BatchOutcome(s, [], Res(s, Finished))
  {
  }

  lemma StoppedOutcome(s: Sys, idxs: seq<nat>, r: Res)
    requires idxs != [] && InRange(idxs, |s.queue|)
    requires StepEffect(s, idxs[0], r) && !r.outcome.Finished?
    ensures BatchOutcome(s, idxs, r)
  {
    OneStepBatch(s, idxs, r);
  }

  lemma ContinuedOutcome(s: Sys, idxs: seq<nat>, first: Res, r: Res)
    requires idxs != [] && InRange(idxs, |s.queue|) && NoRepeated(idxs)
    requires StepEffect(s, idxs[0], first) && first.outcome.Finished?
    requires BatchOutcome(first.s, idxs[1..], r)
    ensures BatchOutcome(s, idxs, r)
  {
    BatchGlue(s, first.s, r.s, idxs, r.outcome.Finished?);
  }

  lemma {:induction false} BatchLaw(w: World, s: Sys, idxs: seq<nat>)
    requires InRange(idxs, |s.queue|) && NoRepeated(idxs)
    ensures BatchOutcome(s, idxs, Batch(w, s, idxs))
    decreases |idxs|
  {
    if idxs == [] {
      EmptyOutcome(s);
    } else {
      BatchUnfold(w, s, idxs);
      var first := Step(w, s, idxs[0]);
      if first.outcome.Finished? {
        BatchLaw(w, first.s, idxs[1..]);
        ContinuedOutcome(s, idxs, first, Batch(w, first.s, idxs[1..]));
      } else {
        StoppedOutcome(s, idxs, first);
      }
    }
  }

  /** A batch that stops says why: the reason of the critical error of its last attempt, or that the outcome
      of its last attempt could not be written. */
  ghost predicate NamesCause(s: Sys, r: Res) {
    && s.history <= r.s.history
    && (!r.outcome.Finished? ==>
          && |s.history| < |r.s.history|
          && var last := r.s.history[|r.s.history| - 1].verdict;
          r.outcome == if last.Critical? then StoppedAt(last.why) else StoreWriteFailed)
  }

  lemma {:induction false} BatchNamesCause(w: World, s: Sys, idxs: seq<nat>)
    requires InRange(idxs, |s.queue|)
    ensures NamesCause(s, Batch(w, s, idxs))
    decreases |idxs|
  {
    if idxs != [] {
      StepLaw(w, s, idxs[0]);
      BatchUnfold(w, s, idxs);
      var first := Step(w, s, idxs[0]);
      if first.outcome.Finished? {
        BatchNamesCause(w, first.s, idxs[1..]);
      }
    }
  }

  /** What a batch over the entries in state `st` does and reports. */
  ghost predicate BatchOver(s: Sys, st: DocState, r: Res) {
    BatchOutcome(s, Fetch(s.queue, st), r) && NamesCause(s, r)
  }

  lemma FetchedBatch(w: World, s: Sys, st: DocState)
    ensures BatchOver(s, st, Batch(w, s, Fetch(s.queue, st)))
  {
    FetchMeaning(s.queue, st);
    BatchLaw(w, s, Fetch(s.queue, st));
    BatchNamesCause(w, s, Fetch(s.queue, st));
  }

  /** Each operation of a sequence is the run it names. */
  lemma PerformRuns(w: World, s: Sys, fetched: bool, fetchedNoQuorum: bool, fetchedFailed: bool)
    ensures Perform(w, s, RunNew(fetched)) == ProcessNew(w, s, fetched).s
    ensures Perform(w, s, RunFailed(fetchedNoQuorum, fetchedFailed)) == ProcessFailed(w, s, fetchedNoQuorum, fetchedFailed).s
  {
  }

  /**
   The two kinds of run. A fetch that fails ends a run and changes nothing. Otherwise a run over the new
   transactions is a batch over them; a run over the failed ones is a batch over those without quorum and,
   only if that finishes, one over those then in `Failed`.
   */
  lemma RunShapes(w: World, s: Sys, fetched: bool, fetchedNoQuorum: bool, fetchedFailed: bool)
    ensures var r := ProcessNew(w, s, fetched);
      if fetched then BatchOver(s, Inserted, r) else r == Res(s, StoreReadFailed)
    ensures var r := ProcessFailed(w, s, fetchedNoQuorum, fetchedFailed);
      if !fetchedNoQuorum then r == Res(s, StoreReadFailed)
      else exists first: Res ::
             && BatchOver(s, FailedToGetCovenantSignatures, first)
             && if !first.outcome.Finished? then r == first
                else if !fetchedFailed then r == Res(first.s, StoreReadFailed)
                else BatchOver(first.s, Failed, r)
  {
    FetchedBatch(w, s, Inserted);
    var first := Batch(w, s, Fetch(s.queue, FailedToGetCovenantSignatures));
    FetchedBatch(w, s, FailedToGetCovenantSignatures);
    FetchedBatch(w, first.s, Failed);
  }

  // ---------- where a critical error leaves a batch ----------

  ghost predicate NoConcurrentAdds(w: World) {
    forall t: nat :: w.answers(t).adds == []
  }

  lemma {:induction false} BatchWithoutAdds(w: World, s: Sys, idxs: seq<nat>)
    requires InRange(idxs, |s.queue|) && NoConcurrentAdds(w)
    ensures |Batch(w, s, idxs).s.queue| == |s.queue|
    decreases |idxs|
  {
    if idxs != [] {
      StepLaw(w, s, idxs[0]);
      if Step(w, s, idxs[0]).outcome.Finished? {
        BatchWithoutAdds(w, Step(w, s, idxs[0]).s, idxs[1..]);
      }
    }
  }

  /** How many transactions a batch settled: all it attempted, but the one it stopped at. */
  function SettledCount(events: seq<Event>, finished: bool): nat
    requires finished || events != []
  {
    if finished then |events| else |events| - 1
  }

  function Between(lo: nat, hi: nat): (r: seq<nat>)
    requires lo <= hi
    ensures |r| == hi - lo && forall k :: 0 <= k < |r| ==> r[k] == lo + k
  {
    seq(hi - lo, k requires 0 <= k => lo + k)
  }

  /**
   The batch settled a prefix of its transactions. If it stopped, the transactions from there on keep
   their state; if it did not, all are settled. A settled transaction is in the outcome state of its
   attempt, never `Inserted`.
   */
  ghost predicate SettledPrefix(s: Sys, idxs: seq<nat>, r: Res) {
    && InRange(idxs, |s.queue|) && s.history <= r.s.history && |s.queue| <= |r.s.queue|
    && var events := NewEvents(s, r.s);
    && (r.outcome.Finished? || events != [])
    && |events| <= |idxs|
    && var done := SettledCount(events, r.outcome.Finished?);
    && (if r.outcome.Finished? then done == |idxs| else done < |idxs|)
    && (forall k :: 0 <= k < done ==> SettledAs(events[k], r.s.queue[idxs[k]].state))
    && (forall k :: done <= k < |idxs| ==> r.s.queue[idxs[k]].state == s.queue[idxs[k]].state)
    && (forall j :: 0 <= j < |s.queue| && j !in idxs ==> r.s.queue[j] == s.queue[j])
    && (forall j :: |s.queue| <= j < |r.s.queue| ==> r.s.queue[j].state == Inserted)
  }

  ghost predicate SettledAs(ev: Event, st: DocState) {
    RecordedAs(ev.verdict, st)
  }

  lemma OutcomeIsPrefix(s: Sys, idxs: seq<nat>, r: Res)
    requires NoRepeated(idxs) && BatchOutcome(s, idxs, r)
    ensures SettledPrefix(s, idxs, r)
  {
    var events := NewEvents(s, r.s);
    var done := SettledCount(events, r.outcome.Finished?);
    forall k | 0 <= k < done
      ensures SettledAs(events[k], r.s.queue[idxs[k]].state)
    {
      assert Recorded(s.queue[idxs[k]].state, r.s.queue[idxs[k]].state, events[k]);
      assert events[k].written;
    }
    forall k | done <= k < |idxs|
      ensures r.s.queue[idxs[k]].state == s.queue[idxs[k]].state
    {
      if k < |events| {
        assert !events[k].written;
        assert Recorded(s.queue[idxs[k]].state, r.s.queue[idxs[k]].state, events[k]);
      } else {
        assert idxs[k] !in idxs[..|events|];
      }
    }
  }

  /** The prefix law for every batch of distinct transactions. */
  lemma PrefixLaw(w: World, s: Sys, idxs: seq<nat>)
    requires InRange(idxs, |s.queue|) && NoRepeated(idxs)
    ensures SettledPrefix(s, idxs, Batch(w, s, idxs))
  {
    BatchLaw(w, s, idxs);
    OutcomeIsPrefix(s, idxs, Batch(w, s, idxs));
  }

  /** Which of a stopped or finished batch are still new. */
  lemma NewAfterPrefix(s: Sys, r: Res, k: nat)
    requires SettledPrefix(s, Fetch(s.queue, Inserted), r) && k < |Fetch(s.queue, Inserted)|
    ensures var idxs := Fetch(s.queue, Inserted);
      r.s.queue[idxs[k]].state == Inserted <==> SettledCount(NewEvents(s, r.s), r.outcome.Finished?) <= k
  {
    var idxs, events := Fetch(s.queue, Inserted), NewEvents(s, r.s);
    FetchMeaning(s.queue, Inserted);
    assert idxs[k] in idxs;
    if k < SettledCount(events, r.outcome.Finished?) {
      assert SettledAs(events[k], r.s.queue[idxs[k]].state);
    }
  }

  lemma BetweenMeaning(lo: nat, hi: nat, i: nat)
    requires lo <= hi
    ensures i in Between(lo, hi) <==> lo <= i < hi
  {
    if lo <= i < hi {
      assert Between(lo, hi)[i - lo] == i;
    }
  }

  lemma RestIncreasing(q: Queue, n: nat, done: nat)
    requires done <= |Fetch(q, Inserted)| && |q| <= n
    ensures Increasing(Fetch(q, Inserted)[done..] + Between(|q|, n))
  {
    FetchMeaning(q, Inserted);
  }

  lemma RestAfterPrefix(s: Sys, r: Res)
    requires SettledPrefix(s, Fetch(s.queue, Inserted), r)
    ensures var idxs := Fetch(s.queue, Inserted);
      var done := SettledCount(NewEvents(s, r.s), r.outcome.Finished?);
      Fetch(r.s.queue, Inserted) == idxs[done..] + Between(|s.queue|, |r.s.queue|)
  {
    var q, q' := s.queue, r.s.queue;
    var idxs := Fetch(q, Inserted);
    var done := SettledCount(NewEvents(s, r.s), r.outcome.Finished?);
    var rest := idxs[done..] + Between(|q|, |q'|);
    forall k | 0 <= k < |idxs|
      ensures q'[idxs[k]].state == Inserted <==> done <= k
    {
      NewAfterPrefix(s, r, k);
    }
    forall i: nat
      ensures i in rest <==> i < |q'| && q'[i].state == Inserted
    {
      BetweenMeaning(|q|, |q'|, i);
      assert i in rest <==> i in idxs[done..] || i in Between(|q|, |q'|);
      if i < |q| {
        RestMembership(q, q', idxs, done, i);
      }
    }
    RestIncreasing(q, |q'|, done);
    FetchUnique(q', Inserted, rest);
  }

  /**
   After a run over the new transactions that settled `done` of them, the next fetch of new
   transactions is exactly the rest of the batch followed by what was added meanwhile; with no one
   adding, exactly the rest. After a run that finished, none of the batch is left.
   */
  lemma NextFetchIsTheRest(w: World, s: Sys)
    ensures var idxs := Fetch(s.queue, Inserted);
      var r := ProcessNew(w, s, true);
      && SettledPrefix(s, idxs, r)
      && var done := SettledCount(NewEvents(s, r.s), r.outcome.Finished?);
      && (r.outcome.Finished? ==> idxs[done..] == [])
      && Fetch(r.s.queue, Inserted) == idxs[done..] + Between(|s.queue|, |r.s.queue|)
      && (NoConcurrentAdds(w) ==> Fetch(r.s.queue, Inserted) == idxs[done..])
  {
    var idxs := Fetch(s.queue, Inserted);
    FetchMeaning(s.queue, Inserted);
    PrefixLaw(w, s, idxs);
    var r := Batch(w, s, idxs);
    RestAfterPrefix(s, r);
    if NoConcurrentAdds(w) {
      BatchWithoutAdds(w, s, idxs);
    }
  }

  lemma RestMembership(q: Queue, q': Queue, idxs: seq<nat>, done: nat, i: nat)
    requires idxs == Fetch(q, Inserted) && done <= |idxs| && i < |q| <= |q'|
    requires forall k :: 0 <= k < done ==> q'[idxs[k]].state != Inserted
    requires forall k :: done <= k < |idxs| ==> q'[idxs[k]].state == Inserted
    requires i !in idxs ==> q'[i] == q[i]
    ensures i in idxs[done..] <==> q'[i].state == Inserted
  {
    FetchMeaning(q, Inserted);
    if i in idxs {
      var k :| 0 <= k < |idxs| && idxs[k] == i;
      if k >= done {
        assert idxs[done..][k - done] == i;
      }
    }
  }

  // ---------- when a stopped run changes nothing ----------

  ghost predicate SameStates(q: Queue, q': Queue) {
    |q| <= |q'| && forall j :: 0 <= j < |q| ==> q'[j].state == q[j].state
  }

  /** The attempt for `e` is not settled: it ends critically, or its outcome cannot be written. */
  predicate Unsettled(w: World, e: Entry, t: nat) {
    Decide(w, e, w.answers(t)).verdict.Critical? || !WriteTaken(w, t)
  }

  lemma PrefixUnchangedIff(s: Sys, r: Res)
    requires SettledPrefix(s, Fetch(s.queue, Inserted), r) && !r.outcome.Finished?
    ensures SameStates(s.queue, r.s.queue) <==> |r.s.history| == |s.history| + 1
  {
    var idxs := Fetch(s.queue, Inserted);
    var events := NewEvents(s, r.s);
    FetchMeaning(s.queue, Inserted);
    if |events| == 1 {
      forall j | 0 <= j < |s.queue|
        ensures r.s.queue[j].state == s.queue[j].state
      {
        if j in idxs {
          var k :| 0 <= k < |idxs| && idxs[k] == j;
        }
      }
    } else {
      assert idxs[0] in idxs;
      assert SettledAs(events[0], r.s.queue[idxs[0]].state);
    }
  }

  lemma StoppedAtFirstIff(w: World, s: Sys, idxs: seq<nat>)
    requires idxs != [] && InRange(idxs, |s.queue|) && NoRepeated(idxs)
    requires !Batch(w, s, idxs).outcome.Finished?
    ensures |Batch(w, s, idxs).s.history| == |s.history| + 1 <==> Unsettled(w, s.queue[idxs[0]], |s.history|)
  {
    BatchUnfold(w, s, idxs);
    StepLaw(w, s, idxs[0]);
    var first := Step(w, s, idxs[0]);
    if first.outcome.Finished? {
      BatchLaw(w, first.s, idxs[1..]);
      assert NewEvents(first.s, Batch(w, s, idxs).s) != [];
    }
  }

  /**
   A new-transactions run that does not finish leaves every state as it was if and only if it stopped at
   its first transaction, and it does that if and only if the attempt for that one is not settled.
   */
  lemma StoppedRunUnchangedIff(w: World, s: Sys)
    requires !ProcessNew(w, s, true).outcome.Finished?
    ensures var idxs := Fetch(s.queue, Inserted);
      var s' := ProcessNew(w, s, true).s;
      && idxs != []
      && (SameStates(s.queue, s'.queue) <==> |s'.history| == |s.history| + 1)
      && (SameStates(s.queue, s'.queue) <==> Unsettled(w, s.queue[idxs[0]], |s.history|))
  {
    var idxs := Fetch(s.queue, Inserted);
    FetchMeaning(s.queue, Inserted);
    PrefixLaw(w, s, idxs);
    PrefixUnchangedIff(s, Batch(w, s, idxs));
    StoppedAtFirstIff(w, s, idxs);
  }

  // Two transactions in the queue: no covenant member answers for the first, and the staking transaction
  // of the second is not found.

  function PlainSubmission(rest: bytes): Submission {
    var key, zeros := PubKey(false, seq(32, _ => 0)), seq(32, _ => 0);
    Submission(TxBody([OutPoint(zeros, 0)], [], rest), NoWitness, seq(64, _ => 0), StakingInfo(key, key, 0, 0),
               StakingTxData(TxBody([], [TxOut(0, [])], []), 0))
  }

  function SilentAnswers(height: Option<nat>): Answers {
    Answers([], height, (_: nat) => Some(SystemParams([], 1, [])), (_: nat) => None, InOrder, true,
            (_: Hash, _: nat) => None, true)
  }

  function TwoInQueueWorld(): World {
    World((body: TxBody) => if body.rest == [] then seq(32, _ => 0) else seq(32, _ => 1),
          (_: XOnly, _: Signature, _: Message) => false,
          (_: StakingInfo, _: SystemParams) => Some(Built(TxOut(0, []), [])),
          (t: nat) => SilentAnswers(if t == 0 then Some(0) else None), InMemory)
  }

  lemma TwoInQueueDecisions(e: Entry, rest: bytes)
    requires e.sub == PlainSubmission(rest)
    ensures Decide(TwoInQueueWorld(), e, SilentAnswers(Some(0))).verdict == NoQuorum
    ensures Decide(TwoInQueueWorld(), e, SilentAnswers(None)).verdict == Critical(TxNotFound)
  {
    var w, a := TwoInQueueWorld(), SilentAnswers(Some(0));
    var params, built := SystemParams([], 1, []), Built(TxOut(0, []), []);
    assert Prepare(w, e.sub, a) == Ok((params, built));
    var order: seq<nat> := a.arrivals(0);
    assert Msgs(RoundFor(w, e.sub.body, a, params, built), order) == [];
    assert Collected(w, e.sub.body, a, params, built).None?;
  }

  lemma ExecuteSnoc(w: World, s: Sys, ops: seq<Op>, op: Op)
    ensures Execute(w, s, ops + [op]) == Perform(w, Execute(w, s, ops), op)
  {
    assert (ops + [op])[..|ops|] == ops;
  }

  lemma AddTwo(w: World, a: Submission, b: Submission)
    requires w.txid(a.body) != w.txid(b.body)
    ensures Execute(w, EMPTY_SYS, [AddTx(a), AddTx(b)]) == Sys([NewEntry(a), NewEntry(b)], [], EMPTY_SYS.metrics)
  {
    ExecuteSnoc(w, EMPTY_SYS, [], AddTx(a));
    ExecuteSnoc(w, EMPTY_SYS, [AddTx(a)], AddTx(b));
    assert [] + [AddTx(a)] == [AddTx(a)] && [AddTx(a)] + [AddTx(b)] == [AddTx(a), AddTx(b)];
  }

  lemma BothFetched(q: Queue)
    requires |q| == 2 && q[0].state == q[1].state == Inserted
    ensures Fetch(q, Inserted) == [0, 1]
  {
    FetchUnique(q, Inserted, [0, 1]);
  }

  lemma DifferentHashes()
    ensures TwoInQueueWorld().txid(PlainSubmission([]).body) != TwoInQueueWorld().txid(PlainSubmission([0]).body)
  {
    assert TwoInQueueWorld().txid(PlainSubmission([]).body)[0] != TwoInQueueWorld().txid(PlainSubmission([0]).body)[0];
  }

  /**
   A critical error does change the status of transactions: the run stops critically at its second
   transaction, and the first one, new before the run, is in another state after it.
   */
  lemma CriticalErrorChangesStates() returns (w: World, ops: seq<Op>)
    ensures var s := Execute(w, EMPTY_SYS, ops);
      var r := ProcessNew(w, s, true);
      && r.outcome == StoppedAt(TxNotFound)
      && |s.queue| == |r.s.queue| == 2
      && s.queue[0].state == s.queue[1].state == r.s.queue[1].state == Inserted
      && r.s.queue[0].state == FailedToGetCovenantSignatures
  {
    w := TwoInQueueWorld();
    ops := [AddTx(PlainSubmission([])), AddTx(PlainSubmission([0]))];
    DifferentHashes();
    AddTwo(w, PlainSubmission([]), PlainSubmission([0]));
    var s := Execute(w, EMPTY_SYS, ops);
    BothFetched(s.queue);
    var first := Step(w, s, 0);
    BatchUnfold(w, s, [0, 1]);
    StepLaw(w, s, 0);
    TwoInQueueDecisions(s.queue[0], []);
    BatchUnfold(w, first.s, [1]);
    StepLaw(w, first.s, 1);
    TwoInQueueDecisions(first.s.queue[1], [0]);
  }

  // ---------- how often the two-phase run attempts a transaction ----------

  function Attempts(events: seq<Event>, i: nat): nat {
    if events == [] then 0
    else Attempts(events[..|events| - 1], i) + (if events[|events| - 1].who == i then 1 else 0)
  }

  /** The verdict of the first attempt for `i`. */
  function FirstVerdict(events: seq<Event>, i: nat): Verdict
    requires Attempts(events, i) > 0
  {
    var init := events[..|events| - 1];
    if Attempts(init, i) > 0 then FirstVerdict(init, i) else events[|events| - 1].verdict
  }

  lemma {:induction false} AttemptsOnce(events: seq<Event>, idxs: seq<nat>, i: nat)
    requires |events| == |idxs| && NoRepeated(idxs)
    requires forall k :: 0 <= k < |events| ==> events[k].who == idxs[k]
    ensures Attempts(events, i) == if i in idxs then 1 else 0
    ensures forall k :: 0 <= k < |idxs| && idxs[k] == i ==> FirstVerdict(events, i) == events[k].verdict
  {
    if events != [] {
      var n := |events| - 1;
      AttemptsOnce(events[..n], idxs[..n], i);
      assert i in idxs <==> i in idxs[..n] || i == idxs[n];
      forall k | 0 <= k < n && idxs[k] == i
        ensures FirstVerdict(events, i) == events[k].verdict
      {
        assert idxs[..n][k] == i;
      }
    }
  }

  lemma {:induction false} AttemptsConcat(a: seq<Event>, b: seq<Event>, i: nat)
    ensures Attempts(a + b, i) == Attempts(a, i) + Attempts(b, i)
    ensures Attempts(a, i) > 0 ==> FirstVerdict(a + b, i) == FirstVerdict(a, i)
  {
    if b == [] {
      assert a + b == a;
    } else {
      var n := |b| - 1;
      AttemptsConcat(a, b[..n], i);
      assert (a + b)[..|a + b| - 1] == a + b[..n];
    }
  }

  /** In a finished batch over the entries in state `st`, each of them is attempted once. */
  ghost predicate AttemptedOnce(s: Sys, st: DocState, r: Sys, i: nat) {
    && s.history <= r.history && |s.queue| <= |r.queue|
    && var events := NewEvents(s, r);
    && (i < |s.queue| && s.queue[i].state == st ==>
          && Attempts(events, i) == 1
          && SettledAsVerdict(FirstVerdict(events, i), r.queue[i].state))
    && (i < |s.queue| && s.queue[i].state != st ==> Attempts(events, i) == 0 && r.queue[i] == s.queue[i])
    && (i >= |s.queue| ==> Attempts(events, i) == 0)
    && (|s.queue| <= i < |r.queue| ==> r.queue[i].state == Inserted)
  }

  ghost predicate SettledAsVerdict(v: Verdict, st: DocState) {
    RecordedAs(v, st)
  }

  lemma OutcomeAttemptsOnce(s: Sys, st: DocState, r: Res, i: nat)
    requires BatchOutcome(s, Fetch(s.queue, st), r) && r.outcome.Finished?
    ensures AttemptedOnce(s, st, r.s, i)
  {
    var idxs := Fetch(s.queue, st);
    FetchMeaning(s.queue, st);
    var events := NewEvents(s, r.s);
    AttemptsOnce(events, idxs, i);
    OutcomeIsPrefix(s, idxs, r);
    if i in idxs {
      var k :| 0 <= k < |idxs| && idxs[k] == i;
      assert SettledAs(events[k], r.s.queue[idxs[k]].state);
    }
  }

  /** How often a finished two-phase run attempts the transaction at position `i`. */
  ghost predicate RetryCounts(s: Sys, r: Sys, i: nat) {
    && s.history <= r.history && |s.queue| <= |r.queue|
    && var events := NewEvents(s, r);
    && (i < |s.queue| && s.queue[i].state == Failed ==> Attempts(events, i) == 1)
    && (i < |s.queue| && s.queue[i].state == FailedToGetCovenantSignatures ==>
          && Attempts(events, i) > 0
          && Attempts(events, i) == if FirstVerdict(events, i) == SendFailed then 2 else 1)
    && (i < |s.queue| && s.queue[i].state !in {Failed, FailedToGetCovenantSignatures} ==>
          Attempts(events, i) == 0 && r.queue[i] == s.queue[i])
    && (i >= |s.queue| ==> Attempts(events, i) == 0)
  }

  lemma TwoPhases(s: Sys, s1: Sys, s2: Sys, i: nat)
    requires AttemptedOnce(s, FailedToGetCovenantSignatures, s1, i) && AttemptedOnce(s1, Failed, s2, i)
    ensures RetryCounts(s, s2, i)
  {
    var e1, e2 := NewEvents(s, s1), NewEvents(s1, s2);
    assert NewEvents(s, s2) == e1 + e2 by {
      assert s1.history == s.history + e1 && s2.history == s1.history + e2;
    }
    AttemptsConcat(e1, e2, i);
  }

  lemma FinishedBatch(w: World, s: Sys, st: DocState, i: nat)
    requires Batch(w, s, Fetch(s.queue, st)).outcome.Finished?
    ensures AttemptedOnce(s, st, Batch(w, s, Fetch(s.queue, st)).s, i)
  {
    FetchMeaning(s.queue, st);
    BatchLaw(w, s, Fetch(s.queue, st));
    OutcomeAttemptsOnce(s, st, Batch(w, s, Fetch(s.queue, st)), i);
  }

  /**
   A failed-transactions run that finishes attempts a transaction that starts in `Failed` exactly once;
   one that starts without quorum twice exactly when its first attempt ended in a failed send, and
   otherwise once; and no other.
   */
  lemma TwoPhaseRetry(w: World, s: Sys, i: nat)
    requires ProcessFailed(w, s, true, true).outcome.Finished?
    ensures RetryCounts(s, ProcessFailed(w, s, true, true).s, i)
  {
    var first := Batch(w, s, Fetch(s.queue, FailedToGetCovenantSignatures));
    FinishedBatch(w, s, FailedToGetCovenantSignatures, i);
    FinishedBatch(w, first.s, Failed, i);
    TwoPhases(s, first.s, Batch(w, first.s, Fetch(first.s.queue, Failed)).s, i);
  }
}
