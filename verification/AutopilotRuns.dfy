/**
 What holds on every run of transitions, stamp writes, workspace edits and crashes: what stands
 behind an entry into acceptance, and what a ralplan entry and the completion depend on.
 */
module AutopilotRuns {
  import opened Options
  import opened Autopilot

  // ---------- reading a run ----------

  ghost predicate Run(start: State, events: seq<Event>) { StateAt(start, events, |events|).Some? }

  predicate EntersPhase(e: Event, p: Phase) { e.Durable? && e.write.SavePhase? && e.write.side.phase == p }

  /** Entries after which the code under review may be different code. */
  predicate CodeEntry(e: Event) { EntersPhase(e, Implement) || EntersPhase(e, Rework) || EntersPhase(e, Review) }

  /** Where one holder of the lease ends and another may begin. */
  predicate Boundary(e: Event) {
    e.Begin? || e.BeginReceipt? || e.BeginCompletion? || e.Crash? || (e.Durable? && e.write.SavePhase?)
  }

  /** Events i and e belong to the same transition, or i to the one pending at e. */
  ghost predicate SameTransition(events: seq<Event>, i: nat, e: nat) {
    i < e <= |events| && forall j :: i < j < e ==> !Boundary(events[j])
  }

  /** Event i is the invalidation `w` of the code entry e. */
  ghost predicate InvalidatesFor(events: seq<Event>, i: nat, e: nat, w: Write) {
    i < e < |events| && events[i] == Durable(w) && CodeEntry(events[e]) && SameTransition(events, i, e)
  }

  /** Event r comes after the invalidation `w` of every code entry before n. */
  ghost predicate AfterInvalidations(events: seq<Event>, n: nat, r: nat, w: Write) {
    forall i: nat, e: nat :: e < n && InvalidatesFor(events, i, e, w) ==> i < r
  }

  /** The event writes the stamp that `w` invalidates, or invalidates it. */
  predicate Touches(e: Event, w: Write) {
    e == Durable(w) || (w.InvalidateReview? && e.ReviewWritten?) || (w.InvalidateQa? && e.QaWritten?)
  }

  /** Between r and n nothing writes or invalidates the stamp that `w` invalidates. */
  ghost predicate Untouched(events: seq<Event>, r: nat, n: nat, w: Write)
    requires n <= |events|
  {
    forall i :: r < i < n ==> !Touches(events[i], w)
  }

  const PAST_REVIEW := {Qa, Acceptance, Verified}
  const PAST_QA := {Acceptance, Verified}

  /** The transition into `next` begun at b is the last of its kind, and no phase outside `phases` was saved since. */
  ghost predicate LastGate(events: seq<Event>, n: nat, b: nat, next: Phase, phases: set<Phase>) {
    && b < n <= |events| && events[b].Begin? && events[b].next == next
    && forall e :: b < e < n ==> StaysBehind(events[e], next, phases)
  }

  predicate StaysBehind(e: Event, next: Phase, phases: set<Phase>) {
    !(e.Begin? && e.next == next) && (e.Durable? && e.write.SavePhase? ==> e.write.side.phase in phases)
  }

  /**
   The stamp written at r opened the last gate of qa, at b: it was the one on disk, last written and
   not invalidated, and clean for the workspace of that moment.
   */
  ghost predicate OpenedQa(start: State, events: seq<Event>, n: nat, r: nat, b: nat)
    requires n <= |events|
  {
    && LastGate(events, n, b, Qa, PAST_REVIEW) && r < b && events[r].ReviewWritten?
    && Untouched(events, r, b, InvalidateReview)
    && StateAt(start, events, b).Some?
    && StateAt(start, events, b).value.disk.review == Some(events[r].review)
    && ReviewIsClean(Some(events[r].review), StateAt(start, events, b).value.disk.workspace)
    && AfterInvalidations(events, n, r, InvalidateReview)
  }

  ghost predicate OpenedAcceptance(start: State, events: seq<Event>, n: nat, q: nat, b: nat)
    requires n <= |events|
  {
    && LastGate(events, n, b, Acceptance, PAST_QA) && q < b && events[q].QaWritten?
    && Untouched(events, q, b, InvalidateQa)
    && StateAt(start, events, b).Some?
    && StateAt(start, events, b).value.disk.qa == Some(events[q].qa)
    && QaIsClean(Some(events[q].qa), StateAt(start, events, b).value.disk.workspace)
    && AfterInvalidations(events, n, q, InvalidateQa)
  }

  /** Some clean review stamp opened the gate of qa. */
  ghost predicate ReviewStands(start: State, events: seq<Event>, n: nat)
    requires n <= |events|
  {
    exists r: nat, b: nat :: OpenedQa(start, events, n, r, b)
  }

  ghost predicate QaStands(start: State, events: seq<Event>, n: nat)
    requires n <= |events|
  {
    exists q: nat, b: nat :: OpenedAcceptance(start, events, n, q, b)
  }

  lemma {:induction false} PrefixRuns(start: State, events: seq<Event>, n: nat, m: nat)
    requires m <= n <= |events| && StateAt(start, events, n).Some?
    ensures StateAt(start, events, m).Some?
  {
    hide Step;
    if m < n { PrefixRuns(start, events, n - 1, m); }
  }

  // ---------- the shape of what is pending ----------

  /** The phase the pending writes will save, if that is still to come. */
  function PendingPhase(s: State): Option<Phase> {
    if s.pending.Some? && |s.pending.value| >= 2 && s.pending.value[|s.pending.value| - 2].SavePhase?
    then Some(s.pending.value[|s.pending.value| - 2].side.phase) else None
  }

  predicate IsCode(p: Phase) { p in {Implement, Rework, Review} }

  /** Only the last but one pending write saves a phase; code phases come with both invalidations. */
  predicate Shape(s: State) {
    s.pending.Some? ==>
      && |s.pending.value| > 0
      && (forall i :: 0 <= i < |s.pending.value| && s.pending.value[i].SavePhase? ==>
            i == |s.pending.value| - 2 && s.pending.value[i + 1].SaveStatus?)
      && (forall i :: 0 <= i < |s.pending.value| && s.pending.value[i].SaveBinder? ==>
          s.pending.value[i].side.phase == Implement)
  }

  lemma TransitionShape(d: Disk, next: Phase, lease: Lease, nonce: nat)
    requires next in Manual(d.side.phase)
    ensures var s := State(d, Some(TransitionWrites(d, next, lease, nonce)));
      && Shape(s) && PendingPhase(s) == Some(next)
      && (IsCode(next) ==> InvalidateReview in s.pending.value && InvalidateQa in s.pending.value)
  {
    hide Epoch;
    var todo := TransitionWrites(d, next, lease, nonce);
    if IsCode(next) {
      assert todo[0] == InvalidateReview && todo[1] == InvalidateQa;
    }
  }

  lemma StepShape(s: State, e: Event)
    requires Shape(s) && Step(s, e).Some?
    ensures Shape(Step(s, e).value)
    ensures PendingPhase(Step(s, e).value).Some? ==>
      || PendingPhase(Step(s, e).value) == PendingPhase(s)
      || (e.Begin? && PendingPhase(Step(s, e).value) == Some(e.next))
      || (e.BeginCompletion? && PendingPhase(Step(s, e).value) == Some(Verified))
    ensures e.Durable? && e.write.SavePhase? ==>
      PendingPhase(s) == Some(e.write.side.phase) && PendingPhase(Step(s, e).value) == None
  {
    hide Allowed, Epoch, Moved, Invalidations, CompletionAllowed, TransitionWrites;
    if e.Begin? {
      assert e.next in Manual(s.disk.side.phase) by { AllowedIsManual(s.disk, e.next, e.evidence); }
      TransitionShape(s.disk, e.next, e.lease, e.nonce);
    }
  }

  lemma AllowedIsManual(d: Disk, next: Phase, ev: Evidence)
    requires Allowed(d, next, ev)
    ensures next in Manual(d.side.phase)
  {
    hide Manual, GateOpen;
  }

  // ---------- the invariant ----------

  /** Every code entry has both its invalidations before it, in its own transition. */
  ghost predicate EntriesInvalidate(events: seq<Event>, n: nat)
    requires n <= |events|
  {
    forall e: nat :: e < n && CodeEntry(events[e]) ==>
      (exists i: nat :: InvalidatesFor(events, i, e, InvalidateReview))
          && (exists i: nat :: InvalidatesFor(events, i, e, InvalidateQa))
  }

  /** What a pending code entry has already invalidated. */
  ghost predicate PendingInvalidated(events: seq<Event>, n: nat, s: State, w: Write)
    requires n <= |events|
  {
    s.pending.Some? && PendingPhase(s).Some? && IsCode(PendingPhase(s).value) && w !in s.pending.value ==>
      exists i: nat :: i < n && events[i] == Durable(w) && SameTransition(events, i, n)
  }

  ghost predicate ReviewOnDisk(events: seq<Event>, n: nat, s: State)
    requires n <= |events|
  {
    s.disk.review.Some? && ReviewSaysClean(s.disk.review.value) ==>
      exists r: nat :: r < n && events[r] == ReviewWritten(s.disk.review.value)
          && Untouched(events, r, n, InvalidateReview)
  }

  ghost predicate QaOnDisk(events: seq<Event>, n: nat, s: State)
    requires n <= |events|
  {
    s.disk.qa.Some? && QaSaysClean(s.disk.qa.value) ==>
      exists q: nat :: q < n && events[q] == QaWritten(s.disk.qa.value) && Untouched(events, q, n, InvalidateQa)
  }

  ghost predicate InPhase(s: State, phases: set<Phase>) {
    s.disk.side.phase in phases || (PendingPhase(s).Some? && PendingPhase(s).value in phases)
  }

  ghost predicate PhasesBacked(start: State, events: seq<Event>, n: nat, s: State)
    requires n <= |events|
  {
    && (InPhase(s, PAST_REVIEW) ==> ReviewStands(start, events, n))
    && (InPhase(s, PAST_QA) ==> QaStands(start, events, n))
  }

  ghost predicate Inv(start: State, events: seq<Event>, n: nat)
    requires n <= |events|
  {
    && StateAt(start, events, n).Some?
    && var s := StateAt(start, events, n).value;
       && Shape(s) && EntriesInvalidate(events, n)
       && PendingInvalidated(events, n, s, InvalidateReview) && PendingInvalidated(events, n, s, InvalidateQa)
       && ReviewOnDisk(events, n, s) && QaOnDisk(events, n, s) && PhasesBacked(start, events, n, s)
  }

  // ---------- one step ----------

  lemma PendingInvalidatedStep(events: seq<Event>, n: nat, s: State, w: Write)
    requires n < |events| && w in {InvalidateReview, InvalidateQa}
    requires Shape(s) && PendingInvalidated(events, n, s, w) && Step(s, events[n]).Some?
    ensures PendingInvalidated(events, n + 1, Step(s, events[n]).value, w)
  {
    hide Allowed, Epoch, Moved, Invalidations, CompletionAllowed, ReceiptAllowed, TransitionWrites;
    var e, t := events[n], Step(s, events[n]).value;
    StepShape(s, e);
    if e.Begin? {
      AllowedIsManual(s.disk, e.next, e.evidence);
      TransitionShape(s.disk, e.next, e.lease, e.nonce);
    } else if t.pending.Some? && PendingPhase(t).Some? && IsCode(PendingPhase(t).value) && w !in t.pending.value {
      if e == Durable(w) {
        assert SameTransition(events, n, n + 1);
      } else {
        assert w !in s.pending.value;
        var i: nat :| i < n && events[i] == Durable(w) && SameTransition(events, i, n);
        assert SameTransition(events, i, n + 1);
      }
    }
  }

  lemma EntriesInvalidateStep(events: seq<Event>, n: nat, s: State)
    requires n < |events| && Shape(s) && EntriesInvalidate(events, n) && Step(s, events[n]).Some?
    requires PendingInvalidated(events, n, s, InvalidateReview) && PendingInvalidated(events, n, s, InvalidateQa)
    ensures EntriesInvalidate(events, n + 1)
  {
    hide Allowed, Epoch, Moved, Invalidations, CompletionAllowed, ReceiptAllowed, TransitionWrites, SameTransition;
    if CodeEntry(events[n]) {
      StepShape(s, events[n]);
      var todo := s.pending.value;
      assert todo[0].SavePhase? && |todo| == 2 && todo[1].SaveStatus?;
      var i: nat :| i < n && events[i] == Durable(InvalidateReview) && SameTransition(events, i, n);
      var j: nat :| j < n && events[j] == Durable(InvalidateQa) && SameTransition(events, j, n);
      assert InvalidatesFor(events, i, n, InvalidateReview) && InvalidatesFor(events, j, n, InvalidateQa);
    }
  }

  lemma ReviewOnDiskStep(events: seq<Event>, n: nat, s: State)
    requires n < |events| && ReviewOnDisk(events, n, s) && Step(s, events[n]).Some?
    ensures ReviewOnDisk(events, n + 1, Step(s, events[n]).value)
  {
    hide Allowed, Epoch, Moved, Invalidations, CompletionAllowed, ReceiptAllowed, TransitionWrites;
    var e, t := events[n], Step(s, events[n]).value;
    if t.disk.review.Some? && ReviewSaysClean(t.disk.review.value) {
      if e.ReviewWritten? {
        assert Untouched(events, n, n + 1, InvalidateReview);
      } else {
        assert t.disk.review == s.disk.review && !Touches(e, InvalidateReview);
        var r: nat :| r < n && events[r] == ReviewWritten(s.disk.review.value)
            && Untouched(events, r, n, InvalidateReview);
        assert Untouched(events, r, n + 1, InvalidateReview);
      }
    }
  }

  lemma QaOnDiskStep(events: seq<Event>, n: nat, s: State)
    requires n < |events| && QaOnDisk(events, n, s) && Step(s, events[n]).Some?
    ensures QaOnDisk(events, n + 1, Step(s, events[n]).value)
  {
    hide Allowed, Epoch, Moved, Invalidations, CompletionAllowed, ReceiptAllowed, TransitionWrites;
    var e, t := events[n], Step(s, events[n]).value;
    if t.disk.qa.Some? && QaSaysClean(t.disk.qa.value) {
      if e.QaWritten? {
        assert Untouched(events, n, n + 1, InvalidateQa);
      } else {
        assert t.disk.qa == s.disk.qa && !Touches(e, InvalidateQa);
        var q: nat :| q < n && events[q] == QaWritten(s.disk.qa.value) && Untouched(events, q, n, InvalidateQa);
        assert Untouched(events, q, n + 1, InvalidateQa);
      }
    }
  }

  /** A stamp with no invalidation since is after every invalidation. */
  lemma UntouchedIsAfter(events: seq<Event>, n: nat, r: nat, w: Write)
    requires r < n < |events| && !events[r].Durable? && Untouched(events, r, n, w) && !events[n].Durable?
    ensures AfterInvalidations(events, n + 1, r, w)
  {
    hide SameTransition;
    forall i: nat, e: nat | e < n + 1 && InvalidatesFor(events, i, e, w) ensures i < r {
      assert Touches(events[i], w);
    }
  }

  lemma BeginQaOpens(start: State, events: seq<Event>, n: nat, s: State)
    requires n < |events| && StateAt(start, events, n) == Some(s) && ReviewOnDisk(events, n, s)
    requires events[n].Begin? && events[n].next == Qa && Step(s, events[n]).Some?
    ensures ReviewStands(start, events, n + 1)
  {
    hide StateAt, AfterInvalidations, Manual, HasWork, TransitionWrites;
    assert GateOpen(s.disk, Qa, events[n].evidence);
    var r: nat :| r < n && events[r] == ReviewWritten(s.disk.review.value) && Untouched(events, r, n, InvalidateReview);
    UntouchedIsAfter(events, n, r, InvalidateReview);
    assert LastGate(events, n + 1, n, Qa, PAST_REVIEW);
    assert OpenedQa(start, events, n + 1, r, n);
  }

  lemma BeginAcceptanceOpens(start: State, events: seq<Event>, n: nat, s: State)
    requires n < |events| && StateAt(start, events, n) == Some(s) && QaOnDisk(events, n, s)
    requires events[n].Begin? && events[n].next == Acceptance && Step(s, events[n]).Some?
    ensures s.disk.side.phase == Qa
    ensures QaStands(start, events, n + 1)
  {
    hide StateAt, AfterInvalidations, HasWork, TransitionWrites;
    assert GateOpen(s.disk, Acceptance, events[n].evidence);
    var q: nat :| q < n && events[q] == QaWritten(s.disk.qa.value) && Untouched(events, q, n, InvalidateQa);
    UntouchedIsAfter(events, n, q, InvalidateQa);
    assert LastGate(events, n + 1, n, Acceptance, PAST_QA);
    assert OpenedAcceptance(start, events, n + 1, q, n);
  }

  lemma AfterInvalidationsStays(events: seq<Event>, n: nat, r: nat, w: Write)
    requires n < |events| && !CodeEntry(events[n]) && AfterInvalidations(events, n, r, w)
    ensures AfterInvalidations(events, n + 1, r, w)
  {
    hide SameTransition;
    forall i: nat, e: nat | e < n + 1 && InvalidatesFor(events, i, e, w) ensures i < r {
      assert e != n;
    }
  }

  /** Opened gates stay opened while the run stays behind them. */
  lemma ReviewStaysOpened(start: State, events: seq<Event>, n: nat)
    requires n < |events| && StaysBehind(events[n], Qa, PAST_REVIEW) && ReviewStands(start, events, n)
    ensures ReviewStands(start, events, n + 1)
  {
    hide StateAt, ReviewIsClean, AfterInvalidations;
    var r: nat, b: nat :| OpenedQa(start, events, n, r, b);
    AfterInvalidationsStays(events, n, r, InvalidateReview);
    assert OpenedQa(start, events, n + 1, r, b);
  }

  lemma QaStaysOpened(start: State, events: seq<Event>, n: nat)
    requires n < |events| && StaysBehind(events[n], Acceptance, PAST_QA) && QaStands(start, events, n)
    ensures QaStands(start, events, n + 1)
  {
    hide StateAt, QaIsClean, AfterInvalidations;
    var q: nat, b: nat :| OpenedAcceptance(start, events, n, q, b);
    AfterInvalidationsStays(events, n, q, InvalidateQa);
    assert OpenedAcceptance(start, events, n + 1, q, b);
  }

  /** Where the phase, or the pending phase, of the next state comes from. */
  lemma PhaseOrigin(s: State, e: Event)
    requires Shape(s) && Step(s, e).Some?
    ensures InPhase(Step(s, e).value, PAST_REVIEW) ==>
      || (e.Begin? && e.next == Qa)
      || (InPhase(s, PAST_REVIEW) && StaysBehind(e, Qa, PAST_REVIEW))
      || (e.Begin? && e.next == Acceptance && s.disk.side.phase == Qa)
      || (e.BeginCompletion? && s.disk.side.phase == Acceptance)
    ensures InPhase(Step(s, e).value, PAST_QA) ==>
      || (e.Begin? && e.next == Acceptance)
      || (InPhase(s, PAST_QA) && StaysBehind(e, Acceptance, PAST_QA))
      || (e.BeginCompletion? && s.disk.side.phase == Acceptance)
  {
    hide Allowed, Epoch, Moved, Invalidations, ReceiptAllowed, TransitionWrites, Authority;
    StepShape(s, e);
    if e.Begin? {
      AllowedIsManual(s.disk, e.next, e.evidence);
      assert e.next != Verified;
    }
  }

  lemma PhasesBackedStep(start: State, events: seq<Event>, n: nat, s: State)
    requires n < |events| && StateAt(start, events, n) == Some(s) && Shape(s) && Step(s, events[n]).Some?
    requires ReviewOnDisk(events, n, s) && QaOnDisk(events, n, s) && PhasesBacked(start, events, n, s)
    ensures PhasesBacked(start, events, n + 1, Step(s, events[n]).value)
  {
    hide Step, Shape, ReviewStands, QaStands, ReviewOnDisk, QaOnDisk, StateAt;
    var e := events[n];
    PhaseOrigin(s, e);
    if StaysBehind(e, Qa, PAST_REVIEW) && ReviewStands(start, events, n) { ReviewStaysOpened(start, events, n); }
    if StaysBehind(e, Acceptance, PAST_QA) && QaStands(start, events, n) { QaStaysOpened(start, events, n); }
    if e.Begin? && e.next == Qa { BeginQaOpens(start, events, n, s); }
    if e.Begin? && e.next == Acceptance { BeginAcceptanceOpens(start, events, n, s); }
  }

  lemma InvStep(start: State, events: seq<Event>, n: nat)
    requires n < |events| && Inv(start, events, n) && StateAt(start, events, n + 1).Some?
    ensures Inv(start, events, n + 1)
  {
    hide Step, Shape, EntriesInvalidate, PendingInvalidated, ReviewOnDisk, QaOnDisk, PhasesBacked;
    var s := StateAt(start, events, n).value;
    StepShape(s, events[n]);
    PendingInvalidatedStep(events, n, s, InvalidateReview);
    PendingInvalidatedStep(events, n, s, InvalidateQa);
    EntriesInvalidateStep(events, n, s);
    ReviewOnDiskStep(events, n, s);
    QaOnDiskStep(events, n, s);
    PhasesBackedStep(start, events, n, s);
  }

  ghost predicate IsStart(start: State) {
    exists skip, nonce, ws :: start == Started(skip, nonce, ws)
  }

  lemma {:induction false} RunInv(start: State, events: seq<Event>, n: nat)
    requires n <= |events| && IsStart(start) && StateAt(start, events, n).Some?
    ensures Inv(start, events, n)
  {
    hide Step, Shape, EntriesInvalidate, PendingInvalidated, ReviewOnDisk, QaOnDisk, PhasesBacked;
    if n == 0 {
      StartInv(start, events);
    } else {
      RunInv(start, events, n - 1);
      InvStep(start, events, n - 1);
    }
  }

  lemma StartInv(start: State, events: seq<Event>)
    requires IsStart(start)
    ensures Inv(start, events, 0)
  {}

  // ---------- acceptance ----------

  /**
   Whatever transitions, stamp writers, edits and crashes did before: when acceptance or verified is entered, a
   review stamp and a QA stamp stand behind it.  Each was on disk, and clean for the workspace, when
   the last transition into qa, and into acceptance, began, and was written after the invalidations
   that every earlier entry into implement, rework or review made of it.
   */
  lemma AcceptanceIsBacked(start: State, events: seq<Event>, t: nat)
    requires IsStart(start) && Run(start, events) && t < |events|
    requires (EntersPhase(events[t], Acceptance) || EntersPhase(events[t], Verified))
    ensures ReviewStands(start, events, t)
    ensures QaStands(start, events, t)
    ensures EntriesInvalidate(events, t)
  {
    hide Step, ReviewStands, QaStands, EntriesInvalidate, PendingInvalidated, ReviewOnDisk, QaOnDisk;
    PrefixRuns(start, events, |events|, t + 1);
    PrefixRuns(start, events, |events|, t);
    RunInv(start, events, t);
    StepShape(StateAt(start, events, t).value, events[t]);
  }
}
