/**
 Runs from the start of Autopilot: acceptance is reached, also with the review invalidated on disk, and
 with stamps older than the last entry into review.
 */
module AutopilotExamples {
  import opened Options
  import opened Autopilot
  import opened AutopilotRuns
  import opened AutopilotGates
  import opened AutopilotCode

  // ---------- steps one after the other ----------

  lemma {:induction false} StepsAppend(s: State, a: seq<Event>, b: seq<Event>)
    requires Steps(s, a).Some?
    ensures Steps(s, a + b) == Steps(Steps(s, a).value, b)
    decreases |a|
  {
    hide Step;
    if |a| == 0 {
      assert a + b == b;
    } else {
      assert (a + b)[1..] == a[1..] + b;
      StepsAppend(Step(s, a[0]).value, a[1..], b);
    }
  }

  /** Steps from the start are a run. */
  lemma {:induction false} StepsAreRun(start: State, events: seq<Event>, n: nat)
    requires n <= |events| && Steps(start, events[..n]).Some?
    ensures StateAt(start, events, n) == Steps(start, events[..n])
  {
    hide Step;
    if n > 0 {
      var front := events[..n - 1];
      assert events[..n] == front + [events[n - 1]];
      FrontSteps(start, front, [events[n - 1]]);
      StepsAreRun(start, events, n - 1);
      StepsAppend(start, front, [events[n - 1]]);
      assert [events[n - 1]][1..] == [];
    }
  }

  lemma {:induction false} FrontSteps(s: State, a: seq<Event>, b: seq<Event>)
    requires Steps(s, a + b).Some?
    ensures Steps(s, a).Some?
    decreases |a|
  {
    hide Step;
    if |a| > 0 {
      assert (a + b)[1..] == a[1..] + b;
      FrontSteps(Step(s, a[0]).value, a[1..], b);
    }
  }

  // ---------- what a transition leaves ----------

  predicate OnlyInvalidates(todo: seq<Write>) {
    forall w :: w in todo ==> w.InvalidateReview? || w.InvalidateQa? || w.InvalidateReceipt? || w.InvalidateConsensus?
  }

  lemma {:induction false} InvalidatingKeeps(d: Disk, todo: seq<Write>)
    requires OnlyInvalidates(todo)
    ensures var t := ApplyAll(d, todo); t.side == d.side && t.status == d.status && t.workspace == d.workspace
    decreases |todo|
  {
    if |todo| > 0 {
      assert todo[0] in todo;
      InvalidatingKeeps(Apply(d, todo[0]), todo[1..]);
    }
  }

  /** The disk of a run on which transitions go through, with a nonce that later ones differ from. */
  predicate At(s: State, phase: Phase, nonce: nat, ws: Workspace) {
    Idle(s, phase) && s.disk.workspace == ws && s.disk.side.nonce == nonce && s.disk.status.nonce == nonce
  }

  lemma TransitionLeaves(s: State, next: Phase, ev: Evidence, lease: Lease, nonce: nat, ws: Workspace)
    returns (t: State, events: seq<Event>)
    requires s.pending.None? && s.disk.workspace == ws && Allowed(s.disk, next, ev) && FreshNonce(s.disk, nonce)
    ensures Steps(s, events) == Some(t) && At(t, next, nonce, ws)
    ensures next == Qa ==> t.disk.review == s.disk.review && t.disk.qa == s.disk.qa
  {
    hide Moved, ApplyAll, Invalidations, GateOpen, Manual, Steps, Apply;
    var d, head := s.disk, Invalidations(s.disk, next);
    events := [Begin(next, ev, lease, nonce)] + Writes(TransitionWrites(d, next, lease, nonce));
    TransitionAlone(d, next, ev, lease, nonce);
    t := State(ApplyAll(d, TransitionWrites(d, next, lease, nonce)), None);
    InvalidationsOnly(d, next);
    InvalidatingKeeps(d, head);
    MovedFields(d, next, lease, nonce);
    ApplyAppend(d, head, [SavePhase(Moved(d, next, lease, nonce)), SaveStatus(nonce, next)]);
    ApplyTwo(ApplyAll(d, head), SavePhase(Moved(d, next, lease, nonce)), SaveStatus(nonce, next));
    SavesLeave(ApplyAll(d, head), Moved(d, next, lease, nonce), nonce, next);
    if next == Qa { QaInvalidatesNothing(d); }
  }

  lemma SavesLeave(d: Disk, side: Side, nonce: nat, next: Phase)
    ensures var t := Apply(Apply(d, SavePhase(side)), SaveStatus(nonce, next));
      && t.side == side && t.status == d.status.(nonce := nonce, authorityPhase := next)
      && t.workspace == d.workspace && t.review == d.review && t.qa == d.qa
  {}

  lemma QaInvalidatesNothing(d: Disk)
    ensures Invalidations(d, Qa) == [] && ApplyAll(d, []) == d
  {}

  // ---------- runs ----------

  const LEASE := Lease(0, 0)

  /** Implement and review, on break-glass evidence. */
  lemma ReviewIsReached(ws: Workspace) returns (s: State, events: seq<Event>)
    ensures Steps(Started(true, 0, ws), events) == Some(s) && At(s, Review, 2, ws)
  {
    hide Steps, Moved, Epoch, TransitionWrites;
    var start := Started(true, 0, ws);
    var a, first := TransitionLeaves(start, Implement, ALL_EVIDENCE, LEASE, 1, ws);
    var b, second := TransitionLeaves(a, Review, ALL_EVIDENCE, LEASE, 2, ws);
    StepsAppend(start, first, second);
    s, events := b, first + second;
  }

  /** A review stamp that is clean for a workspace. */
  function CleanReview(ws: Workspace): (r: ReviewStamp)
    ensures ReviewIsClean(Some(r), ws)
  {
    ReviewStamp(true, true, true, false, Some(ws.fingerprint), None, NoLane, NoLane)
  }

  function CleanQa(ws: Workspace): (q: QaStamp)
    ensures QaIsClean(Some(q), ws)
  {
    QaStamp(true, true, true, true, false, None)
  }

  lemma QaIsReached(ws: Workspace) returns (s: State, events: seq<Event>)
    ensures Steps(Started(true, 0, ws), events) == Some(s) && At(s, Qa, 3, ws) && s.disk.review.Some?
  {
    hide Steps, Moved, Epoch, TransitionWrites, ReviewIsClean;
    var start := Started(true, 0, ws);
    var a, first := ReviewIsReached(ws);
    var b := a.(disk := a.disk.(review := Some(CleanReview(ws))));
    StepsOnPath([a, b], [ReviewWritten(CleanReview(ws))]);
    var c, last := TransitionLeaves(b, Qa, NO_EVIDENCE, LEASE, 3, ws);
    StepsAppend(start, first, [ReviewWritten(CleanReview(ws))]);
    StepsAppend(start, first + [ReviewWritten(CleanReview(ws))], last);
    s, events := c, first + [ReviewWritten(CleanReview(ws))] + last;
  }

  lemma ReworkIsReached(ws: Workspace) returns (s: State, events: seq<Event>)
    ensures Steps(Started(true, 0, ws), events) == Some(s) && At(s, Rework, 3, ws)
  {
    hide Steps, Moved, Epoch, TransitionWrites;
    var start := Started(true, 0, ws);
    var a, first := ReviewIsReached(ws);
    var b, last := TransitionLeaves(a, Rework, NO_EVIDENCE, LEASE, 3, ws);
    StepsAppend(start, first, last);
    s, events := b, first + last;
  }

  /** Some run enters acceptance with the review invalidated on disk. */
  lemma AcceptedWithInvalidatedReview(ws: Workspace) returns (events: seq<Event>, t: nat)
    ensures IsStart(Started(true, 0, ws)) && Run(Started(true, 0, ws), events)
    ensures t < |events| && EntersPhase(events[t], Acceptance)
    ensures StateAt(Started(true, 0, ws), events, t).Some?
    ensures var review := StateAt(Started(true, 0, ws), events, t).value.disk.review;
      review.Some? && review.value.invalidated
  {
    hide Steps, Moved, Epoch, TransitionWrites, StateAt;
    var start := Started(true, 0, ws);
    var s, first := QaIsReached(ws);
    var killed := [Begin(Rework, NO_EVIDENCE, LEASE, 4), Durable(InvalidateReview), Durable(InvalidateQa), Crash];
    KilledReworkSkipsReview(s, NO_EVIDENCE, LEASE, 4, 5, CleanQa(ws));
    var mid := Steps(s, killed).value;
    var side := Moved(mid.disk.(qa := Some(CleanQa(ws))), Acceptance, LEASE, 5);
    MovedFields(mid.disk.(qa := Some(CleanQa(ws))), Acceptance, LEASE, 5);
    var head, save := [QaWritten(CleanQa(ws)), Begin(Acceptance, NO_EVIDENCE, LEASE, 5)], Durable(SavePhase(side));
    assert head + [save] == [QaWritten(CleanQa(ws)), Begin(Acceptance, NO_EVIDENCE, LEASE, 5), save];
    FrontSteps(mid, head, [save]);
    StepsAppend(mid, head, [save]);
    var before := Steps(mid, head).value;
    SaveKeepsReview(before, side);
    StepsAppend(start, first, killed);
    StepsAppend(start, first + killed, head);
    var front := first + killed + head;
    StepsAppend(start, front, [save]);
    events, t := front + [save], |front|;
    assert events[..t] == front && events[..t + 1] == events;
    StepsAreRun(start, events, t);
    StepsAreRun(start, events, t + 1);
  }

  lemma SaveKeepsReview(s: State, side: Side)
    requires Steps(s, [Durable(SavePhase(side))]).Some?
    ensures Steps(s, [Durable(SavePhase(side))]).value.disk.review == s.disk.review
  {
    assert [Durable(SavePhase(side))][1..] == [];
  }

  /** Some run begins acceptance on stamps that were written inside the entry into review, and so before it. */
  lemma AcceptedOnOlderStamps(ws: Workspace) returns (events: seq<Event>, e: nat, r: nat, q: nat)
    ensures Run(Started(true, 0, ws), events) && r < q < e < |events|
    ensures EntersPhase(events[e], Review) && events[r] == ReviewWritten(CleanReview(ws))
    ensures events[q] == QaWritten(CleanQa(ws))
    ensures forall i :: q < i < |events| ==> !events[i].ReviewWritten? && !events[i].QaWritten?
    ensures PendingPhase(StateAt(Started(true, 0, ws), events, |events|).value) == Some(Acceptance)
  {
    hide Steps, Moved, Epoch, TransitionWrites, StateAt;
    var start := Started(true, 0, ws);
    var s, first := ReworkIsReached(ws);
    StampsInsideOpenAcceptance(s, NO_EVIDENCE, LEASE, 4, 5, 6, CleanReview(ws), CleanQa(ws));
    var inside := StampedInside(s.disk, NO_EVIDENCE, LEASE, 4, CleanReview(ws), CleanQa(ws));
    var mid := Steps(s, inside).value;
    var rest := [Begin(Qa, NO_EVIDENCE, LEASE, 5), Durable(SavePhase(Moved(mid.disk, Qa, LEASE, 5))),
                 Durable(SaveStatus(5, Qa)), Begin(Acceptance, NO_EVIDENCE, LEASE, 6)];
    StepsAppend(start, first, inside);
    StepsAppend(start, first + inside, rest);
    events := first + inside + rest;
    var n := |first|;
    r, q, e := n + 3, n + 4, n + 5;
    MovedFields(s.disk, Review, LEASE, 4);
    assert inside[3] == ReviewWritten(CleanReview(ws)) && inside[4] == QaWritten(CleanQa(ws));
    assert events[r] == inside[3] && events[q] == inside[4] && events[e] == inside[5];
    forall i | q < i < |events| ensures !events[i].ReviewWritten? && !events[i].QaWritten? {
      assert events[i] == if i < n + 7 then inside[i - n] else rest[i - n - 7];
    }
    assert events[..|events|] == events;
    StepsAreRun(start, events, |events|);
  }
}
