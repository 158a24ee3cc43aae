/** The pipeline's counters over whole runs. */
module MetricsLaws {
  import opened PipelineModel
  import opened BatchLaws
  import opened Requirements
  import BroadcastLaws

  function CountIf(h: seq<Event>, p: Event -> bool): nat {
    if h == [] then 0 else CountIf(h[..|h| - 1], p) + (if p(h[|h| - 1]) then 1 else 0)
  }

  predicate RecordedSend(ev: Event) {
    ev.verdict == SendOk && ev.written
  }

  predicate RecordedFailure(ev: Event) {
    ev.verdict == SendFailed && ev.written
  }

  predicate WithoutQuorum(ev: Event) {
    ev.verdict == NoQuorum
  }

  predicate FoundSpent(ev: Event) {
    ev.verdict == AlreadySpent
  }

  /** How many members return a verifying signature in an attempt; none is asked if a check fails. */
  function Signed(w: World, a: Answers, sub: Submission): nat {
    if ChecksPass(w, a, sub) then |Signers(w, a, sub)| else 0
  }

  /** How many members are asked in an attempt and do not. */
  function NotSigned(w: World, a: Answers, sub: Submission): nat {
    if ChecksPass(w, a, sub) then |Committee(w, a, sub)| - |Signers(w, a, sub)| else 0
  }

  function SignedIn(w: World, h: seq<Event>): nat {
    if h == [] then 0
    else
      var t := |h| - 1;
      SignedIn(w, h[..t]) + Signed(w, w.answers(t), h[t].sub)
  }

  function NotSignedIn(w: World, h: seq<Event>): nat {
    if h == [] then 0
    else
      var t := |h| - 1;
      NotSignedIn(w, h[..t]) + NotSigned(w, w.answers(t), h[t].sub)
  }

  /** The counters say exactly what has happened. */
  ghost predicate Tallied(w: World, s: Sys) {
    && s.metrics.sent == CountIf(s.history, RecordedSend)
    && s.metrics.sendFailed == CountIf(s.history, RecordedFailure)
    && s.metrics.noQuorum == CountIf(s.history, WithoutQuorum)
    && s.metrics.signOk == SignedIn(w, s.history)
    && s.metrics.signFailed == NotSignedIn(w, s.history)
  }

  lemma CountedAsRequired(w: World, m: Metrics, sub: Submission, a: Answers)
    ensures CountSigning(w, m, sub, a)
            == m.(signOk := m.signOk + Signed(w, a, sub), signFailed := m.signFailed + NotSigned(w, a, sub))
  {
    BroadcastLaws.PrepareMeaning(w, a, sub);
    if ChecksPass(w, a, sub) {
      BroadcastLaws.RoundAsRequired(w, a, sub);
    }
  }

  lemma StepTallied(w: World, s: Sys, i: nat)
    requires i < |s.queue| && Tallied(w, s)
    ensures Tallied(w, Step(w, s, i).s)
  {
    StepLaw(w, s, i);
    CountedAsRequired(w, s.metrics, s.queue[i].sub, w.answers(|s.history|));
    var s' := Step(w, s, i).s;
    assert s'.history[..|s'.history| - 1] == s.history;
  }

  lemma {:induction false} BatchTallied(w: World, s: Sys, idxs: seq<nat>)
    requires InRange(idxs, |s.queue|) && Tallied(w, s)
    ensures Tallied(w, Batch(w, s, idxs).s)
    decreases |idxs|
  {
    if idxs != [] {
      BatchUnfold(w, s, idxs);
      StepTallied(w, s, idxs[0]);
      if Step(w, s, idxs[0]).outcome.Finished? {
        BatchTallied(w, Step(w, s, idxs[0]).s, idxs[1..]);
      }
    }
  }

  lemma PerformTallied(w: World, s: Sys, op: Op)
    requires Tallied(w, s)
    ensures Tallied(w, Perform(w, s, op))
  {
    match op {
      case AddTx(sub) =>
      case RunNew(fetched) =>
        BatchTallied(w, s, Fetch(s.queue, Inserted));
      case RunFailed(f1, f2) =>
        BatchTallied(w, s, Fetch(s.queue, FailedToGetCovenantSignatures));
        var s1 := Batch(w, s, Fetch(s.queue, FailedToGetCovenantSignatures)).s;
        BatchTallied(w, s1, Fetch(s1.queue, Failed));
    }
  }

  /** After any run the counters agree with the history of attempts: the members that returned a verifying
      signature, those that were asked and did not, and the outcomes that were recorded. */
  lemma {:induction false} CountersAgree(w: World, ops: seq<Op>)
    ensures Tallied(w, Execute(w, EMPTY_SYS, ops))
  {
    if ops != [] {
      CountersAgree(w, ops[..|ops| - 1]);
      PerformTallied(w, Execute(w, EMPTY_SYS, ops[..|ops| - 1]), ops[|ops| - 1]);
    }
  }

  lemma {:induction false} CountConcat(a: seq<Event>, b: seq<Event>, p: Event -> bool)
    ensures CountIf(a + b, p) == CountIf(a, p) + CountIf(b, p)
  {
    if b == [] {
      assert a + b == a;
    } else {
      CountConcat(a, b[..|b| - 1], p);
      assert (a + b)[..|a + b| - 1] == a + b[..|b| - 1];
    }
  }

  lemma {:induction false} FourOutcomes(events: seq<Event>)
    requires forall k :: 0 <= k < |events| ==> events[k].written && !events[k].verdict.Critical?
    ensures |events| == CountIf(events, RecordedSend) + CountIf(events, RecordedFailure)
                        + CountIf(events, WithoutQuorum) + CountIf(events, FoundSpent)
  {
    if events != [] {
      FourOutcomes(events[..|events| - 1]);
    }
  }

  /**
   On a batch that finishes, the size of the batch is the increase of the sent, failed-send and
   no-quorum counters plus the number of transactions found already spent.
   */
  lemma BatchConservation(w: World, s: Sys, idxs: seq<nat>)
    requires InRange(idxs, |s.queue|) && NoRepeated(idxs) && Tallied(w, s)
    requires Batch(w, s, idxs).outcome.Finished?
    ensures var s' := Batch(w, s, idxs).s;
      && s.history <= s'.history
      && |idxs| == (s'.metrics.sent - s.metrics.sent) + (s'.metrics.sendFailed - s.metrics.sendFailed)
                   + (s'.metrics.noQuorum - s.metrics.noQuorum) + CountIf(NewEvents(s, s'), FoundSpent)
  {
    BatchLaw(w, s, idxs);
    BatchTallied(w, s, idxs);
    var s' := Batch(w, s, idxs).s;
    Conserved(w, s, s', idxs);
  }

  lemma Conserved(w: World, s: Sys, s': Sys, idxs: seq<nat>)
    requires Tallied(w, s) && Tallied(w, s') && s.history <= s'.history
    requires Attempted(idxs, NewEvents(s, s'), true)
    ensures |idxs| == (s'.metrics.sent - s.metrics.sent) + (s'.metrics.sendFailed - s.metrics.sendFailed)
                      + (s'.metrics.noQuorum - s.metrics.noQuorum) + CountIf(NewEvents(s, s'), FoundSpent)
  {
    var events := NewEvents(s, s');
    assert s'.history == s.history + events;
    CountConcat(s.history, events, RecordedSend);
    CountConcat(s.history, events, RecordedFailure);
    CountConcat(s.history, events, WithoutQuorum);
    FourOutcomes(events);
  }
}
