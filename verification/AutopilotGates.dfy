/**
 What else the gates of Autopilot rest on: when a ralplan entry invalidates, what stands behind a
 review, and what completion reads.
 */
module AutopilotGates {
  import opened Options
  import opened Autopilot
  import opened AutopilotRuns

  // ---------- runs by their steps ----------

  function Steps(s: State, events: seq<Event>): Option<State>
    decreases |events|
  {
    if |events| == 0 then Some(s)
    else
      match Step(s, events[0])
      case None => None
      case Some(t) => Steps(t, events[1..])
  }

  ghost predicate Path(states: seq<State>, events: seq<Event>) {
    |states| == |events| + 1 && forall i :: 0 <= i < |events| ==> Step(states[i], events[i]) == Some(states[i + 1])
  }

  lemma {:induction false} StepsOnPath(states: seq<State>, events: seq<Event>)
    requires Path(states, events)
    ensures Steps(states[0], events) == Some(states[|events|])
    decreases |events|
  {
    hide Step;
    if |events| > 0 { StepsOnPath(states[1..], events[1..]); }
  }

  /** The pending writes of a transition into the phases used below. */
  lemma PendingOf(s: State, next: Phase, ev: Evidence, lease: Lease, nonce: nat)
    requires Step(s, Begin(next, ev, lease, nonce)).Some?
    ensures var tail := [SavePhase(Moved(s.disk, next, lease, nonce)), SaveStatus(nonce, next)];
      && ((next == Review && s.disk.side.phase == Rework) || next == Rework ==>
            Step(s, Begin(next, ev, lease, nonce))
                == Some(s.(pending := Some([InvalidateReview, InvalidateQa, tail[0], tail[1]]))))
      && (next == Qa || next == Acceptance ==>
            Step(s, Begin(next, ev, lease, nonce)) == Some(s.(pending := Some(tail))))
  {
    hide Moved, Allowed, Epoch;
    var tail := [SavePhase(Moved(s.disk, next, lease, nonce)), SaveStatus(nonce, next)];
    assert QUALITY + tail == [InvalidateReview, InvalidateQa, tail[0], tail[1]];
    assert [] + tail == tail;
  }

  /** A disk in `phase` on which transitions are not refused outright. */
  predicate Idle(s: State, phase: Phase) {
    s.pending.None? && s.disk.side.phase == phase && !s.disk.status.terminal && !s.disk.status.cancelPending
  }

  /** A review entered from rework, with both stamps written just before its phase save. */
  function StampedInside(d: Disk, ev: Evidence, lease: Lease, nonce: nat, review: ReviewStamp,
                         qa: QaStamp): seq<Event> {
    [Begin(Review, ev, lease, nonce), Durable(InvalidateReview), Durable(InvalidateQa), ReviewWritten(review),
     QaWritten(qa),
     Durable(SavePhase(Moved(d, Review, lease, nonce))), Durable(SaveStatus(nonce, Review))]
  }

  lemma StampedInsideRuns(s: State, ev: Evidence, lease: Lease, nonce: nat, review: ReviewStamp, qa: QaStamp)
    returns (t: State)
    requires Idle(s, Rework) && FreshNonce(s.disk, nonce)
    ensures Steps(s, StampedInside(s.disk, ev, lease, nonce, review, qa)) == Some(t) && Idle(t, Review)
    ensures t.disk.review == Some(review) && t.disk.qa == Some(qa) && t.disk.workspace == s.disk.workspace
    ensures t.disk.side.nonce == nonce && t.disk.status.nonce == nonce
  {
    hide Moved, ReviewIsClean, QaIsClean, HasWork, Epoch, TransitionWrites, Steps;
    var moved := Moved(s.disk, Review, lease, nonce);
    MovedFields(s.disk, Review, lease, nonce);
    PendingOf(s, Review, ev, lease, nonce);
    var s1 := Step(s, Begin(Review, ev, lease, nonce)).value;
    var s2 := Pop(s1, InvalidateReview, [InvalidateQa, SavePhase(moved), SaveStatus(nonce, Review)]);
    var s3 := Pop(s2, InvalidateQa, [SavePhase(moved), SaveStatus(nonce, Review)]);
    var s4 := Step(s3, ReviewWritten(review)).value;
    var s5 := Step(s4, QaWritten(qa)).value;
    var s6 := Pop(s5, SavePhase(moved), [SaveStatus(nonce, Review)]);
    t := Pop(s6, SaveStatus(nonce, Review), []);
    StepsOnPath([s, s1, s2, s3, s4, s5, s6, t], StampedInside(s.disk, ev, lease, nonce, review, qa));
  }

  /**
   The stamp writers take no lease: from any run in rework, a review and a QA stamp written between
   the invalidations and the phase save of the next review open qa and acceptance, although both
   are older than that entry into review.
   */
  lemma StampsInsideOpenAcceptance(s: State, ev: Evidence, lease: Lease, n1: nat, n2: nat, n3: nat,
                                   review: ReviewStamp, qa: QaStamp)
    requires Idle(s, Rework) && FreshNonce(s.disk, n1) && n2 != n1 && n3 != n2
    requires ReviewIsClean(Some(review), s.disk.workspace) && QaIsClean(Some(qa), s.disk.workspace)
    ensures var t := Steps(s, StampedInside(s.disk, ev, lease, n1, review, qa));
      && t.Some? && t.value.disk.side.phase == Review
      && var side := Moved(t.value.disk, Qa, lease, n2);
         var u := Steps(t.value,
             [Begin(Qa, ev, lease, n2), Durable(SavePhase(side)), Durable(SaveStatus(n2, Qa)),
              Begin(Acceptance, ev, lease, n3)]);
         u.Some? && PendingPhase(u.value) == Some(Acceptance)
  {
    hide Moved, ReviewIsClean, QaIsClean, HasWork, Epoch, TransitionWrites, StampedInside, Steps;
    var t := StampedInsideRuns(s, ev, lease, n1, review, qa);
    PendingOf(t, Qa, ev, lease, n2);
    var t1 := Step(t, Begin(Qa, ev, lease, n2)).value;
    var side := Moved(t.disk, Qa, lease, n2);
    MovedFields(t.disk, Qa, lease, n2);
    var u1 := Pop(t1, SavePhase(side), [SaveStatus(n2, Qa)]);
    var u2 := Pop(u1, SaveStatus(n2, Qa), []);
    PendingOf(u2, Acceptance, ev, lease, n3);
    MovedFields(u2.disk, Acceptance, lease, n3);
    var u := Step(u2, Begin(Acceptance, ev, lease, n3)).value;
    StepsOnPath([t, t1, u1, u2, u],
                [Begin(Qa, ev, lease, n2), Durable(SavePhase(side)), Durable(SaveStatus(n2, Qa)),
                 Begin(Acceptance, ev, lease, n3)]);
  }

  /** The next pending write. */
  lemma Pop(s: State, w: Write, rest: seq<Write>) returns (t: State)
    requires s.pending.Some? && s.pending.value == [w] + rest
    ensures Step(s, Durable(w)) == Some(t) && t == State(Apply(s.disk, w), if rest == [] then None else Some(rest))
  {
    assert ([w] + rest)[1..] == rest;
    t := Step(s, Durable(w)).value;
  }

  lemma MovedFields(d: Disk, next: Phase, lease: Lease, nonce: nat)
    ensures var m := Moved(d, next, lease, nonce);
      m.phase == next && m.authorityPhase == next && m.nonce == nonce
  {
    hide Epoch;
  }

  /**
   Only the QA gate is read at acceptance.  From any run in qa with a review stamp, a rework killed
   after its invalidations, followed by one clean QA run, reaches acceptance with the review
   invalidated on disk.
   */
  lemma KilledReworkSkipsReview(s: State, ev: Evidence, lease: Lease, n1: nat, n2: nat, qa: QaStamp)
    requires Idle(s, Qa) && FreshNonce(s.disk, n1) && FreshNonce(s.disk, n2)
    requires s.disk.review.Some? && QaIsClean(Some(qa), s.disk.workspace)
    ensures var t := Steps(s, [Begin(Rework, ev, lease, n1), Durable(InvalidateReview), Durable(InvalidateQa), Crash]);
      && t.Some?
      && var u := Steps(t.value, [QaWritten(qa), Begin(Acceptance, ev, lease, n2),
                                  Durable(SavePhase(Moved(t.value.disk.(qa := Some(qa)), Acceptance, lease, n2)))]);
         && u.Some? && u.value.disk.side.phase == Acceptance
         && u.value.disk.review.Some? && u.value.disk.review.value.invalidated
         && !ReviewIsClean(u.value.disk.review, u.value.disk.workspace)
  {
    hide Moved, QaIsClean, HasWork, Epoch, TransitionWrites, Steps;
    var t := ReworkKilled(s, ev, lease, n1);
    var t1 := Step(t, QaWritten(qa)).value;
    PendingOf(t1, Acceptance, ev, lease, n2);
    var t2 := Step(t1, Begin(Acceptance, ev, lease, n2)).value;
    var side := Moved(t1.disk, Acceptance, lease, n2);
    MovedFields(t1.disk, Acceptance, lease, n2);
    var u := Pop(t2, SavePhase(side), [SaveStatus(n2, Acceptance)]);
    StepsOnPath([t, t1, t2, u], [QaWritten(qa), Begin(Acceptance, ev, lease, n2), Durable(SavePhase(side))]);
  }

  lemma ReworkKilled(s: State, ev: Evidence, lease: Lease, nonce: nat) returns (t: State)
    requires Idle(s, Qa) && FreshNonce(s.disk, nonce) && s.disk.review.Some?
    ensures Steps(s, [Begin(Rework, ev, lease, nonce), Durable(InvalidateReview), Durable(InvalidateQa), Crash])
      == Some(t)
    ensures t == State(Apply(Apply(s.disk, InvalidateReview), InvalidateQa), None)
  {
    hide Moved, QaIsClean, HasWork, Epoch, TransitionWrites, Steps, Apply;
    var moved := Moved(s.disk, Rework, lease, nonce);
    PendingOf(s, Rework, ev, lease, nonce);
    var s1 := Step(s, Begin(Rework, ev, lease, nonce)).value;
    var s2 := Pop(s1, InvalidateReview, [InvalidateQa, SavePhase(moved), SaveStatus(nonce, Rework)]);
    var s3 := Pop(s2, InvalidateQa, [SavePhase(moved), SaveStatus(nonce, Rework)]);
    t := Step(s3, Crash).value;
    StepsOnPath([s, s1, s2, s3, t],
                [Begin(Rework, ev, lease, nonce), Durable(InvalidateReview), Durable(InvalidateQa), Crash]);
  }

  // ---------- a transition left alone ----------

  function Writes(todo: seq<Write>): seq<Event> {
    if |todo| == 0 then [] else [Durable(todo[0])] + Writes(todo[1..])
  }

  lemma {:induction false} AllWritten(d: Disk, todo: seq<Write>)
    requires |todo| > 0
    ensures Steps(State(d, Some(todo)), Writes(todo)) == Some(State(ApplyAll(d, todo), None))
    decreases |todo|
  {
    hide Apply;
    var s := State(d, Some(todo));
    var d' := Apply(d, todo[0]);
    assert Writes(todo)[1..] == Writes(todo[1..]);
    assert Step(s, Durable(todo[0])) == Some(State(d', if |todo| == 1 then None else Some(todo[1..])));
    if |todo| > 1 {
      AllWritten(d', todo[1..]);
    } else {
      assert Writes(todo[1..]) == [] && ApplyAll(d', todo[1..]) == d';
    }
  }

  /** With nothing in between, the steps of a transition end in all of its writes made in order. */
  lemma TransitionAlone(d: Disk, next: Phase, ev: Evidence, lease: Lease, nonce: nat)
    requires Allowed(d, next, ev) && FreshNonce(d, nonce)
    ensures var todo := TransitionWrites(d, next, lease, nonce);
      Steps(State(d, None), [Begin(next, ev, lease, nonce)] + Writes(todo)) == Some(State(ApplyAll(d, todo), None))
  {
    hide Apply, Allowed, Moved, Invalidations, Writes, ApplyAll;
    var todo := TransitionWrites(d, next, lease, nonce);
    assert Step(State(d, None), Begin(next, ev, lease, nonce)) == Some(State(d, Some(todo)));
    assert ([Begin(next, ev, lease, nonce)] + Writes(todo))[1..] == Writes(todo);
    AllWritten(d, todo);
  }

  // ---------- what a ralplan entry invalidates ----------

  function RalplanEntries(events: seq<Event>, n: nat): nat
    requires n <= |events|
  {
    if n == 0 then 0 else RalplanEntries(events, n - 1) + (if EntersPhase(events[n - 1], Ralplan) then 1 else 0)
  }

  /** The epoch a side file should carry, and its cycle count. */
  predicate Counts(side: Side, entries: nat) {
    side.epoch == Some(entries) && side.ralplanCycles == if entries == 0 then 0 else entries - 1
  }

  predicate CountsKept(s: State, entries: nat) {
    && Counts(s.disk.side, entries)
    && (s.pending.Some? ==> forall w :: w in s.pending.value ==>
          && (w.SavePhase? ==> Counts(w.side, entries + if w.side.phase == Ralplan then 1 else 0))
          && (w.SaveBinder? ==> Counts(w.side, entries)))
  }

  lemma MovedCounts(d: Disk, next: Phase, lease: Lease, nonce: nat, entries: nat)
    requires Counts(d.side, entries)
    ensures Counts(Moved(d, next, lease, nonce), entries + if next == Ralplan then 1 else 0)
    ensures Moved(d, next, lease, nonce).phase == next
  {}

  lemma CountsStep(s: State, e: Event, entries: nat)
    requires CountsKept(s, entries) && Shape(s) && Step(s, e).Some?
    ensures CountsKept(Step(s, e).value, entries + if EntersPhase(e, Ralplan) then 1 else 0)
  {
    hide Moved, Allowed, Epoch, CompletionAllowed, ReceiptAllowed;
    if e.Begin? {
      MovedCounts(s.disk, e.next, e.lease, e.nonce, entries);
    } else if e.Durable? && e.write.SavePhase? {
      StepShape(s, e);
      var t := Step(s, e).value;
      assert t.pending.Some? ==> forall w :: w in t.pending.value ==> w.SaveStatus?;
    }
  }

  lemma {:induction false} CountsOnRun(skip: bool, nonce: nat, ws: Workspace, events: seq<Event>, n: nat)
    requires n <= |events| && StateAt(Started(skip, nonce, ws), events, n).Some?
    ensures CountsKept(StateAt(Started(skip, nonce, ws), events, n).value,
                       (if skip then 1 else 0) + RalplanEntries(events, n))
  {
    hide Step, CountsKept, Inv;
    var start := Started(skip, nonce, ws);
    if n == 0 {
      assert CountsKept(start, if skip then 1 else 0) by { StartCounts(skip, nonce, ws); }
    } else {
      CountsOnRun(skip, nonce, ws, events, n - 1);
      RunInv(start, events, n - 1);
      var s := StateAt(start, events, n - 1).value;
      assert Shape(s) by { InvShape(start, events, n - 1); }
      CountsStep(s, events[n - 1], (if skip then 1 else 0) + RalplanEntries(events, n - 1));
    }
  }

  lemma StartCounts(skip: bool, nonce: nat, ws: Workspace)
    ensures CountsKept(Started(skip, nonce, ws), if skip then 1 else 0)
  {}

  lemma InvShape(start: State, events: seq<Event>, n: nat)
    requires n <= |events| && Inv(start, events, n)
    ensures Shape(StateAt(start, events, n).value)
  {
    hide Shape, EntriesInvalidate, PendingInvalidated, ReviewOnDisk, QaOnDisk, PhasesBacked;
  }

  /**
   A ralplan entry invalidates the review, the QA and the consensus exactly when the run started in
   ralplan or has entered it before: the first entry invalidates nothing, from wherever it comes.
   */
  lemma RalplanEntryInvalidates(skip: bool, nonce: nat, ws: Workspace, events: seq<Event>, t: nat)
    requires t < |events| && StateAt(Started(skip, nonce, ws), events, t + 1).Some?
    requires events[t].Begin? && events[t].next == Ralplan
    ensures var todo := StateAt(Started(skip, nonce, ws), events, t + 1).value.pending;
      && todo.Some?
      && (skip || RalplanEntries(events, t) > 0 <==> InvalidateReview in todo.value)
      && (skip || RalplanEntries(events, t) > 0 <==> InvalidateQa in todo.value)
      && (skip || RalplanEntries(events, t) > 0 <==> InvalidateConsensus in todo.value)
  {
    hide Moved, Allowed, CompletionAllowed, ReceiptAllowed, RalplanEntries, Started;
    var start := Started(skip, nonce, ws);
    CountsOnRun(skip, nonce, ws, events, t);
    var d := StateAt(start, events, t).value.disk;
    var todo := StateAt(start, events, t + 1).value.pending.value;
    assert Epoch(d) == (if skip then 1 else 0) + RalplanEntries(events, t);
    if Epoch(d) > 0 {
      assert todo[0] == InvalidateReview && todo[1] == InvalidateQa && todo[2] == InvalidateConsensus;
    }
  }

  // ---------- what stands behind a review ----------

  /** A receipt of exactly this workspace was stamped at k, and implement was not entered since. */
  ghost predicate StampedSince(start: State, events: seq<Event>, n: nat, k: nat, content: nat)
    requires n <= |events|
  {
    && k < n && events[k].BeginReceipt? && StateAt(start, events, k).Some?
    && StateAt(start, events, k).value.disk.workspace.fingerprint == content
    && forall e :: k < e < n ==> !EntersPhase(events[e], Implement)
  }

  ghost predicate Stamped(start: State, events: seq<Event>, n: nat, binder: Option<Receipt>)
    requires n <= |events|
  {
    binder.Some? ==> exists k: nat :: StampedSince(start, events, n, k, binder.value.content)
  }

  ghost predicate BindersKept(start: State, events: seq<Event>, n: nat, s: State)
    requires n <= |events|
  {
    && Stamped(start, events, n, s.disk.side.binder)
    && (s.pending.Some? ==> forall w :: w in s.pending.value ==>
          && (w.SavePhase? ==>
              Stamped(start, events, n, w.side.binder) && (w.side.phase == Implement ==> w.side.binder.None?))
          && (w.SaveBinder? ==> Stamped(start, events, n, w.side.binder)))
  }

  lemma StampedStays(start: State, events: seq<Event>, n: nat, binder: Option<Receipt>)
    requires n < |events| && Stamped(start, events, n, binder) && (EntersPhase(events[n], Implement) ==> binder.None?)
    ensures Stamped(start, events, n + 1, binder)
  {
    hide StateAt, EntersPhase;
    if binder.Some? {
      var k: nat :| StampedSince(start, events, n, k, binder.value.content);
      assert StampedSince(start, events, n + 1, k, binder.value.content);
    }
  }

  lemma MovedBinder(d: Disk, next: Phase, lease: Lease, nonce: nat)
    ensures var m := Moved(d, next, lease, nonce);
      m.phase == next && (m.binder == if next == Implement then None else d.side.binder)
  {
    hide Epoch;
  }

  lemma BindersStep(start: State, events: seq<Event>, n: nat, s: State)
    requires n < |events| && StateAt(start, events, n) == Some(s) && Shape(s) && Step(s, events[n]).Some?
    requires BindersKept(start, events, n, s)
    ensures BindersKept(start, events, n + 1, Step(s, events[n]).value)
  {
    hide Moved, Allowed, Epoch, CompletionAllowed, ReceiptAllowed, StateAt, Stamped, Shape;
    var e, t := events[n], Step(s, events[n]).value;
    StepShape(s, e);
    forall binder: Option<Receipt> | Stamped(start, events, n, binder) && (EntersPhase(e, Implement) ==> binder.None?)
      ensures Stamped(start, events, n + 1, binder)
    {
      StampedStays(start, events, n, binder);
    }
    if e.Begin? {
      MovedBinder(s.disk, e.next, e.lease, e.nonce);
      assert Stamped(start, events, n, None) by { NoBinder(start, events, n); }
    } else if e.BeginReceipt? {
      var receipt := Receipt(e.lease, s.disk.workspace.fingerprint);
      ReceiptStamps(start, events, n, s, receipt);
      assert t.pending.value
          == [SaveReceipt(receipt), SaveBinder(s.disk.side.(expected := Some(e.lease), binder := Some(receipt)))];
    } else if e.Durable? && e.write.SavePhase? {
      assert t.pending.Some? ==> forall w :: w in t.pending.value ==> w.SaveStatus? by { AfterPhase(s, e); }
    }
  }

  lemma AfterPhase(s: State, e: Event)
    requires Shape(s) && Step(s, e).Some? && e.Durable? && e.write.SavePhase?
    ensures var t := Step(s, e).value; t.pending.Some? ==> forall w :: w in t.pending.value ==> w.SaveStatus?
  {}

  lemma NoBinder(start: State, events: seq<Event>, n: nat)
    requires n <= |events|
    ensures Stamped(start, events, n, None)
  {}

  lemma ReceiptStamps(start: State, events: seq<Event>, n: nat, s: State, receipt: Receipt)
    requires n < |events| && StateAt(start, events, n) == Some(s) && events[n].BeginReceipt?
    requires receipt.content == s.disk.workspace.fingerprint
    ensures Stamped(start, events, n + 1, Some(receipt))
  {
    hide StateAt;
    assert StampedSince(start, events, n + 1, n, receipt.content);
  }

  lemma {:induction false} BindersOnRun(start: State, events: seq<Event>, n: nat)
    requires n <= |events| && IsStart(start) && StateAt(start, events, n).Some?
    ensures BindersKept(start, events, n, StateAt(start, events, n).value)
  {
    hide Step, BindersKept, Inv;
    if n == 0 {
      StartBinders(start, events);
    } else {
      BindersOnRun(start, events, n - 1);
      RunInv(start, events, n - 1);
      InvShape(start, events, n - 1);
      BindersStep(start, events, n - 1, StateAt(start, events, n - 1).value);
    }
  }

  lemma StartBinders(start: State, events: seq<Event>)
    requires IsStart(start)
    ensures BindersKept(start, events, 0, start)
  {}

  lemma BinderOf(start: State, events: seq<Event>, n: nat, s: State)
    requires n <= |events| && BindersKept(start, events, n, s)
    ensures Stamped(start, events, n, s.disk.side.binder)
  {
    hide Stamped;
  }

  lemma StampedMeans(start: State, events: seq<Event>, n: nat, binder: Option<Receipt>)
    requires n <= |events| && Stamped(start, events, n, binder) && binder.Some?
    ensures exists k: nat :: StampedSince(start, events, n, k, binder.value.content)
  {
    hide StampedSince;
  }

  // ---------- what completion reads ----------

  /** The save at a and the status write at w are the last ones of a phase, and belong together. */
  ghost predicate BothWritten(events: seq<Event>, n: nat, a: nat, w: nat, side: Side)
    requires n <= |events|
  {
    && a < w < n && EntersPhase(events[a], side.phase) && events[a].write.side.nonce == side.nonce
    && events[w] == Durable(SaveStatus(side.nonce, side.phase))
    && forall e :: a < e < n ==> !(events[e].Durable? && events[e].write.SavePhase?)
  }

  ghost predicate SavedAt(events: seq<Event>, n: nat, a: nat, side: Side)
    requires n <= |events|
  {
    && a < n && EntersPhase(events[a], side.phase) && events[a].write.side.nonce == side.nonce
    && forall e :: a < e < n ==> !(events[e].Durable? && events[e].write.SavePhase?)
  }

  /** The pending saves of a phase and of the status agree and are new to the disk. */
  predicate PendingBinds(s: State) {
    s.pending.Some? ==>
      var todo := s.pending.value;
      && (forall i :: 0 <= i < |todo| && todo[i].SavePhase? ==>
            i + 1 < |todo| && todo[i + 1] == SaveStatus(todo[i].side.nonce, todo[i].side.phase)
            && todo[i].side.nonce != s.disk.side.nonce && todo[i].side.nonce != s.disk.status.nonce)
      && (forall i :: 0 <= i < |todo| && todo[i].SaveBinder? ==>
          todo[i].side.nonce == s.disk.side.nonce && todo[i].side.phase == s.disk.side.phase)
      && (forall i :: 0 <= i < |todo| && todo[i].SaveStatus? ==> i == |todo| - 1 && (i > 0 ==> todo[i - 1].SavePhase?))
      && (|todo| > 0 && todo[0].SaveStatus? ==> todo[0] == SaveStatus(s.disk.side.nonce, s.disk.side.phase))
  }

  ghost predicate Bound(events: seq<Event>, n: nat, s: State)
    requires n <= |events|
  {
    && PendingBinds(s)
    && (s.disk.side.nonce == s.disk.status.nonce ==>
          s.disk.side.phase in {Interview, Ralplan}
          || exists a: nat, w: nat :: BothWritten(events, n, a, w, s.disk.side))
    && (s.pending.Some? && |s.pending.value| > 0 && s.pending.value[0].SaveStatus? ==>
        exists a: nat :: SavedAt(events, n, a, s.disk.side))
  }

  lemma PendingBindsStep(s: State, e: Event)
    requires PendingBinds(s) && Shape(s) && Step(s, e).Some?
    ensures PendingBinds(Step(s, e).value)
  {
    hide Moved, Allowed, Epoch, CompletionAllowed, Invalidations, TransitionWrites;
    if e.Begin? {
      hide PendingBinds;
      BeginBinds(s.disk, e.next, e.lease, e.nonce);
    } else if e.Durable? {
      hide PendingBinds;
      PopBinds(s, e.write);
    }
  }

  lemma PopBinds(s: State, w: Write)
    requires PendingBinds(s) && Shape(s) && Step(s, Durable(w)).Some?
    ensures PendingBinds(Step(s, Durable(w)).value)
  {
    var todo, rest := s.pending.value, s.pending.value[1..];
    assert forall i :: 0 <= i < |rest| ==> rest[i] == todo[i + 1];
  }

  lemma BeginBinds(d: Disk, next: Phase, lease: Lease, nonce: nat)
    requires FreshNonce(d, nonce)
    ensures PendingBinds(State(d, Some(TransitionWrites(d, next, lease, nonce))))
  {
    hide Moved, Epoch, Invalidations;
    MovedFields(d, next, lease, nonce);
    var head := Invalidations(d, next);
    InvalidationsOnly(d, next);
    assert forall i :: 0 <= i < |head| ==> head[i] in head;
  }

  lemma InvalidationsOnly(d: Disk, next: Phase)
    ensures forall w :: w in Invalidations(d, next) ==>
      w.InvalidateReview? || w.InvalidateQa? || w.InvalidateReceipt? || w.InvalidateConsensus?
  {
    hide Epoch;
  }

  lemma BoundStep(events: seq<Event>, n: nat, s: State)
    requires n < |events| && Bound(events, n, s) && Shape(s) && Step(s, events[n]).Some?
    ensures Bound(events, n + 1, Step(s, events[n]).value)
  {
    hide Moved, Allowed, Epoch, CompletionAllowed, ReceiptAllowed, Invalidations, TransitionWrites, CompletionWrites;
    hide EntersPhase;
    var e, t := events[n], Step(s, events[n]).value;
    PendingBindsStep(s, e);
    if e.Durable? && e.write.SavePhase? {
      assert SavedAt(events, n + 1, n, t.disk.side) by {
        assert EntersPhase(e, t.disk.side.phase) by { SaveEnters(e); }
      }
    } else if e.Durable? && e.write.SaveStatus? {
      var a: nat :| SavedAt(events, n, a, s.disk.side);
      assert BothWritten(events, n + 1, a, n, t.disk.side);
    } else {
      if exists a: nat, w: nat :: BothWritten(events, n, a, w, s.disk.side) {
        var a: nat, w: nat :| BothWritten(events, n, a, w, s.disk.side);
        assert BothWritten(events, n + 1, a, w, t.disk.side);
      }
      if exists a: nat :: SavedAt(events, n, a, s.disk.side) {
        var a: nat :| SavedAt(events, n, a, s.disk.side);
        assert SavedAt(events, n + 1, a, t.disk.side);
      }
      BeginsWithoutStatus(s, e);
    }
  }

  lemma SaveEnters(e: Event)
    requires e.Durable? && e.write.SavePhase?
    ensures EntersPhase(e, e.write.side.phase)
  {}

  /** Only a phase save uncovers a status write. */
  lemma BeginsWithoutStatus(s: State, e: Event)
    requires PendingBinds(s) && Shape(s) && Step(s, e).Some? && !(e.Durable? && e.write.SavePhase?)
    ensures var t := Step(s, e).value;
      t.pending.Some? && |t.pending.value| > 0 && t.pending.value[0].SaveStatus? ==>
        s.pending == t.pending
  {
    hide Moved, Allowed, Epoch, CompletionAllowed, ReceiptAllowed;
    if e.Begin? { InvalidationsOnly(s.disk, e.next); }
  }

  lemma {:induction false} BoundOnRun(start: State, events: seq<Event>, n: nat)
    requires n <= |events| && IsStart(start) && StateAt(start, events, n).Some?
    ensures Bound(events, n, StateAt(start, events, n).value)
  {
    hide Step, Bound, Inv;
    if n == 0 {
      StartBound(start, events);
    } else {
      BoundOnRun(start, events, n - 1);
      RunInv(start, events, n - 1);
      InvShape(start, events, n - 1);
      BoundStep(events, n - 1, StateAt(start, events, n - 1).value);
    }
  }

  lemma StartBound(start: State, events: seq<Event>)
    requires IsStart(start)
    ensures Bound(events, 0, start)
  {}

  /** Completion begins only where the last phase saved is acceptance and its own status write was made too. */
  lemma CompletionNeedsBothWrites(start: State, events: seq<Event>, t: nat)
    requires IsStart(start) && t < |events| && StateAt(start, events, t + 1).Some? && events[t].BeginCompletion?
    ensures StateAt(start, events, t).value.disk.side.phase == Acceptance
    ensures exists a: nat, w: nat :: BothWritten(events, t, a, w, StateAt(start, events, t).value.disk.side)
  {
    hide Bound;
    BoundOnRun(start, events, t);
    var s := StateAt(start, events, t).value;
    BoundMeans(events, t, s);
  }

  lemma BoundMeans(events: seq<Event>, n: nat, s: State)
    requires n <= |events| && Bound(events, n, s) && Authority(s.disk)
    ensures exists a: nat, w: nat :: BothWritten(events, n, a, w, s.disk.side)
  {}
}
