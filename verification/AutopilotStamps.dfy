/**
 The stamps behind an acceptance: exactly when they are younger than every entry into a code phase,
 and exactly when the review that opened qa still stands.
 */
module AutopilotStamps {
  import opened Options
  import opened Autopilot
  import opened AutopilotRuns

  // ---------- one gate, one stamp ----------

  /** The last gate of qa, and the review that opened it, are unique. */
  lemma OneReviewOpened(start: State, events: seq<Event>, t: nat, r: nat, b: nat, r': nat, b': nat)
    requires t <= |events| && OpenedQa(start, events, t, r, b) && OpenedQa(start, events, t, r', b')
    ensures r == r' && b == b'
  {
    hide StateAt, ReviewIsClean, AfterInvalidations;
    OneGate(events, t, b, b', Qa, PAST_REVIEW);
    OneTouch(events, b, r, r', InvalidateReview);
  }

  lemma OneQaOpened(start: State, events: seq<Event>, t: nat, q: nat, b: nat, q': nat, b': nat)
    requires t <= |events| && OpenedAcceptance(start, events, t, q, b) && OpenedAcceptance(start, events, t, q', b')
    ensures q == q' && b == b'
  {
    hide StateAt, QaIsClean, AfterInvalidations;
    OneGate(events, t, b, b', Acceptance, PAST_QA);
    OneTouch(events, b, q, q', InvalidateQa);
  }

  lemma OneGate(events: seq<Event>, t: nat, b: nat, b': nat, next: Phase, phases: set<Phase>)
    requires LastGate(events, t, b, next, phases) && LastGate(events, t, b', next, phases)
    ensures b == b'
  {
    hide LastGate;
    NoLaterGate(events, t, b, b', next, phases);
    NoLaterGate(events, t, b', b, next, phases);
  }

  lemma NoLaterGate(events: seq<Event>, t: nat, b: nat, b': nat, next: Phase, phases: set<Phase>)
    requires LastGate(events, t, b, next, phases) && LastGate(events, t, b', next, phases)
    ensures b' <= b
  {
    var e := events[b'];
    assert b < b' ==> StaysBehind(e, next, phases);
  }

  lemma OneTouch(events: seq<Event>, b: nat, r: nat, r': nat, w: Write)
    requires b <= |events| && r < b && r' < b && Touches(events[r], w) && Touches(events[r'], w)
    requires Untouched(events, r, b, w) && Untouched(events, r', b, w)
    ensures r == r'
  {}

  // ---------- stamps and the phase save ----------

  /** Every entry into implement, rework or review before t is before r. */
  ghost predicate EntriesBefore(events: seq<Event>, t: nat, r: nat)
    requires t <= |events|
  {
    forall e: nat :: e < t && CodeEntry(events[e]) ==> e < r
  }

  /** Event r falls between the invalidation `w` of a code entry before t and the save of its phase. */
  ghost predicate FallsInside(events: seq<Event>, t: nat, r: nat, w: Write) {
    exists i: nat, e: nat :: i < r < e < t && InvalidatesFor(events, i, e, w)
  }

  lemma YoungerExactly(events: seq<Event>, t: nat, r: nat, w: Write)
    requires r < t <= |events| && !events[r].Durable? && AfterInvalidations(events, t, r, w)
    requires forall e: nat :: e < t && CodeEntry(events[e]) ==> exists i: nat :: InvalidatesFor(events, i, e, w)
    ensures EntriesBefore(events, t, r) <==> !FallsInside(events, t, r, w)
  {
    hide InvalidatesFor, CodeEntry;
    if !FallsInside(events, t, r, w) {
      forall e: nat | e < t && CodeEntry(events[e]) ensures e < r {
        var i: nat :| InvalidatesFor(events, i, e, w);
        assert i < r;
        EntryIsDurable(events[e]);
      }
    }
    if FallsInside(events, t, r, w) {
      var i: nat, e: nat :| i < r < e < t && InvalidatesFor(events, i, e, w);
      assert CodeEntry(events[e]) by { EntryOf(events, i, e, w); }
    }
  }

  lemma EntryIsDurable(e: Event)
    requires CodeEntry(e)
    ensures e.Durable?
  {}

  lemma EntryOf(events: seq<Event>, i: nat, e: nat, w: Write)
    requires InvalidatesFor(events, i, e, w)
    ensures e < |events| && CodeEntry(events[e])
  {
    hide CodeEntry;
  }

  /**
   On every run that enters acceptance, the review behind it is younger than every entry into
   implement, rework or review exactly when it was not written inside one: between the
   invalidation of the review and the save of the phase.
   */
  lemma ReviewIsYoungerExactly(start: State, events: seq<Event>, t: nat, r: nat, b: nat)
    requires IsStart(start) && Run(start, events) && t < |events| && EntersPhase(events[t], Acceptance)
    requires OpenedQa(start, events, t, r, b)
    ensures EntriesBefore(events, t, r) <==> !FallsInside(events, t, r, InvalidateReview)
  {
    hide StateAt, Run, IsStart, EntersPhase, ReviewIsClean, InvalidatesFor, AfterInvalidations;
    AcceptanceIsBacked(start, events, t);
    YoungerExactly(events, t, r, InvalidateReview);
  }

  lemma QaIsYoungerExactly(start: State, events: seq<Event>, t: nat, q: nat, b: nat)
    requires IsStart(start) && Run(start, events) && t < |events| && EntersPhase(events[t], Acceptance)
    requires OpenedAcceptance(start, events, t, q, b)
    ensures EntriesBefore(events, t, q) <==> !FallsInside(events, t, q, InvalidateQa)
  {
    hide StateAt, Run, IsStart, EntersPhase, QaIsClean, InvalidatesFor, AfterInvalidations;
    AcceptanceIsBacked(start, events, t);
    YoungerExactly(events, t, q, InvalidateQa);
  }

  /** No stamp at all is written inside a code entry before t. */
  ghost predicate NoStampInside(events: seq<Event>, t: nat) {
    forall r: nat :: r < t && t <= |events| && (events[r].ReviewWritten? || events[r].QaWritten?) ==>
      !FallsInside(events, t, r, InvalidateReview) && !FallsInside(events, t, r, InvalidateQa)
  }

  /** Then both stamps behind an acceptance are younger than the last entry into a code phase. */
  lemma AcceptedStampsAreYounger(start: State, events: seq<Event>, t: nat)
    requires IsStart(start) && Run(start, events) && t < |events| && EntersPhase(events[t], Acceptance)
    requires NoStampInside(events, t)
    ensures exists r: nat, b: nat :: OpenedQa(start, events, t, r, b) && EntriesBefore(events, t, r)
    ensures exists q: nat, b: nat :: OpenedAcceptance(start, events, t, q, b) && EntriesBefore(events, t, q)
  {
    hide StateAt, Run, IsStart, EntersPhase, ReviewIsClean, QaIsClean, FallsInside, AfterInvalidations, LastGate;
    AcceptanceIsBacked(start, events, t);
    var r: nat, b: nat :| OpenedQa(start, events, t, r, b);
    var q: nat, c: nat :| OpenedAcceptance(start, events, t, q, c);
    ReviewIsYoungerExactly(start, events, t, r, b);
    QaIsYoungerExactly(start, events, t, q, c);
    GateBefore(events, t, b, Qa, PAST_REVIEW);
    GateBefore(events, t, c, Acceptance, PAST_QA);
  }

  lemma GateBefore(events: seq<Event>, t: nat, b: nat, next: Phase, phases: set<Phase>)
    requires LastGate(events, t, b, next, phases)
    ensures b < t
  {}

  // ---------- the review on disk ----------

  /** A stamp that nothing has touched since it was written is the one on disk. */
  lemma {:induction false} WrittenStays(start: State, events: seq<Event>, w: nat, n: nat)
    requires w < n <= |events| && events[w].ReviewWritten? && Untouched(events, w, n, InvalidateReview)
    requires StateAt(start, events, n).Some?
    ensures StateAt(start, events, n).value.disk.review == Some(events[w].review)
  {
    hide Step;
    if n > w + 1 {
      WrittenStays(start, events, w, n - 1);
      assert !Touches(events[n - 1], InvalidateReview);
      UntouchedStep(StateAt(start, events, n - 1).value, events[n - 1]);
    } else {
      WrittenStep(StateAt(start, events, w).value, events[w]);
    }
  }

  lemma WrittenStep(s: State, e: Event)
    requires e.ReviewWritten?
    ensures Step(s, e).Some? && Step(s, e).value.disk.review == Some(e.review)
  {}

  lemma UntouchedStep(s: State, e: Event)
    requires Step(s, e).Some? && !Touches(e, InvalidateReview)
    ensures Step(s, e).value.disk.review == s.disk.review
  {
    hide Allowed, Epoch, Moved, Invalidations, CompletionAllowed, ReceiptAllowed, TransitionWrites;
  }

  /** The same stamp was written at w, not before r, and nothing has touched it since. */
  ghost predicate WrittenLast(events: seq<Event>, r: nat, w: nat, t: nat)
    requires r < t <= |events|
  {
    r <= w < t && events[w].ReviewWritten? && events[w] == events[r] && Untouched(events, w, t, InvalidateReview)
  }

  /**
   On every run that enters acceptance, the review on disk is still the stamp that opened qa exactly
   when that stamp, or the very same one written again, was not followed by an invalidation or by
   another review.
   */
  lemma ReviewStandsExactly(start: State, events: seq<Event>, t: nat, r: nat, b: nat)
    requires IsStart(start) && Run(start, events) && t < |events| && EntersPhase(events[t], Acceptance)
    requires OpenedQa(start, events, t, r, b)
    ensures StateAt(start, events, t).Some?
    ensures StateAt(start, events, t).value.disk.review == Some(events[r].review) <==>
      exists w: nat :: WrittenLast(events, r, w, t)
  {
    hide StateAt, IsStart, AfterInvalidations, EntersPhase;
    PrefixRuns(start, events, |events|, t);
    var review := StateAt(start, events, t).value.disk.review;
    if review == Some(events[r].review) {
      RunInv(start, events, t);
      ReviewFromInv(start, events, t);
      var w: nat :| w < t && events[w] == ReviewWritten(review.value) && Untouched(events, w, t, InvalidateReview);
      assert r <= w by { assert Touches(events[r], InvalidateReview); }
      assert WrittenLast(events, r, w, t);
    }
    if exists w: nat :: WrittenLast(events, r, w, t) {
      var w: nat :| WrittenLast(events, r, w, t);
      WrittenStays(start, events, w, t);
    }
  }

  lemma ReviewFromInv(start: State, events: seq<Event>, n: nat)
    requires n <= |events| && Inv(start, events, n)
    ensures ReviewOnDisk(events, n, StateAt(start, events, n).value)
  {
    hide Shape, EntriesInvalidate, PendingInvalidated, ReviewOnDisk, QaOnDisk, PhasesBacked;
  }

  /** The same stamp is not written again after the gate at b. */
  ghost predicate NotRewritten(events: seq<Event>, r: nat, b: nat, t: nat)
    requires r < t <= |events|
  {
    forall w :: b < w < t ==> events[w] != events[r]
  }

  /** Where the same stamp is not written again: exactly when nothing touched the review after the gate opened. */
  lemma ReviewStandsUntouched(start: State, events: seq<Event>, t: nat, r: nat, b: nat)
    requires IsStart(start) && Run(start, events) && t < |events| && EntersPhase(events[t], Acceptance)
    requires OpenedQa(start, events, t, r, b)
    requires NotRewritten(events, r, b, t)
    ensures StateAt(start, events, t).Some?
    ensures StateAt(start, events, t).value.disk.review == Some(events[r].review) <==>
      Untouched(events, b, t, InvalidateReview)
  {
    hide StateAt, IsStart, AfterInvalidations, EntersPhase, Run, ReviewIsClean;
    ReviewStandsExactly(start, events, t, r, b);
    assert events[b].Begin?;
    if exists w: nat :: WrittenLast(events, r, w, t) {
      var w: nat :| WrittenLast(events, r, w, t);
      assert w <= b;
    }
    if Untouched(events, b, t, InvalidateReview) {
      assert WrittenLast(events, r, r, t);
    }
  }

  // ---------- where an invalidation goes ----------

  const INVALIDATING := {Implement, Rework, Review, Ralplan}

  /** The invalidation at i is of a transition killed at c before the save of its phase. */
  ghost predicate Lost(events: seq<Event>, i: nat, c: nat) {
    c < |events| && events[c].Crash? && SameTransition(events, i, c)
  }

  /** The invalidation at i is of a transition whose phase was saved at c. */
  ghost predicate Arrived(events: seq<Event>, i: nat, c: nat) {
    c < |events| && events[c].Durable? && events[c].write.SavePhase? && events[c].write.side.phase in INVALIDATING
    && SameTransition(events, i, c)
  }

  /** Pending writes with an invalidation, or behind one, are those of a transition into a phase that invalidates. */
  ghost predicate Fates(events: seq<Event>, n: nat, s: State)
    requires n <= |events|
  {
    && (s.pending.Some? && InvalidateReview in s.pending.value ==> Invalidating(s))
    && forall i: nat :: i < n && events[i] == Durable(InvalidateReview) ==> Fate(events, n, s, i)
  }

  predicate Invalidating(s: State) { PendingPhase(s).Some? && PendingPhase(s).value in INVALIDATING }

  ghost predicate Fate(events: seq<Event>, n: nat, s: State, i: nat)
    requires n <= |events|
  {
    (SameTransition(events, i, n) && Invalidating(s))
        || (exists c: nat :: c < n && (Lost(events, i, c) || Arrived(events, i, c)))
  }

  lemma FateStep(events: seq<Event>, n: nat, s: State, i: nat)
    requires n < |events| && Shape(s) && Step(s, events[n]).Some? && i < n && Fate(events, n, s, i)
    ensures Fate(events, n + 1, Step(s, events[n]).value, i)
  {
    hide Step, SameTransition;
    var e, t := events[n], Step(s, events[n]).value;
    if SameTransition(events, i, n) && Invalidating(s) {
      StepShape(s, e);
      PendingEnds(s, e);
      if Boundary(e) {
        assert Lost(events, i, n) || Arrived(events, i, n);
      } else {
        assert SameTransition(events, i, n + 1) by { SameGoesOn(events, i, n); }
      }
    }
  }

  lemma SameGoesOn(events: seq<Event>, i: nat, n: nat)
    requires n < |events| && SameTransition(events, i, n) && !Boundary(events[n])
    ensures SameTransition(events, i, n + 1)
  {}

  /** A pending phase ends in a kill or in its save. */
  lemma PendingEnds(s: State, e: Event)
    requires Shape(s) && PendingPhase(s).Some? && Step(s, e).Some?
    ensures Boundary(e) ==> e.Crash? || (e.Durable? && e.write.SavePhase?)
    ensures !Boundary(e) ==> PendingPhase(Step(s, e).value) == PendingPhase(s)
  {
    hide Allowed, Epoch, Moved, Invalidations, CompletionAllowed, ReceiptAllowed, TransitionWrites;
  }

  lemma PendingInvalidates(s: State, e: Event)
    requires Shape(s) && Step(s, e).Some?
    requires s.pending.Some? && InvalidateReview in s.pending.value ==> Invalidating(s)
    ensures var t := Step(s, e).value; t.pending.Some? && InvalidateReview in t.pending.value ==> Invalidating(t)
    ensures e == Durable(InvalidateReview) ==> Invalidating(s)
  {
    hide Allowed, Epoch, Moved, Invalidations, CompletionAllowed, ReceiptAllowed, TransitionWrites;
    var t := Step(s, e).value;
    if e.Begin? {
      AllowedIsManual(s.disk, e.next, e.evidence);
      TransitionShape(s.disk, e.next, e.lease, e.nonce);
      if InvalidateReview in t.pending.value { OnlyInvalidating(s.disk, e.next, e.lease, e.nonce); }
    } else if t.pending.Some? && InvalidateReview in t.pending.value {
      assert s.pending.Some? && InvalidateReview in s.pending.value;
      PendingEnds(s, e);
    }
  }

  lemma OnlyInvalidating(d: Disk, next: Phase, lease: Lease, nonce: nat)
    requires InvalidateReview in TransitionWrites(d, next, lease, nonce)
    ensures next in INVALIDATING
  {
    hide Epoch, Moved;
  }

  lemma FatesStep(events: seq<Event>, n: nat, s: State)
    requires n < |events| && Shape(s) && Step(s, events[n]).Some? && Fates(events, n, s)
    ensures Fates(events, n + 1, Step(s, events[n]).value)
  {
    hide Step, Fate, Shape;
    var e, t := events[n], Step(s, events[n]).value;
    PendingInvalidates(s, e);
    forall i: nat | i < n + 1 && events[i] == Durable(InvalidateReview) ensures Fate(events, n + 1, t, i) {
      if i < n {
        FateStep(events, n, s, i);
      } else {
        StepShape(s, e);
        PendingEnds(s, e);
        NewFate(events, n, t);
      }
    }
  }

  lemma NewFate(events: seq<Event>, n: nat, t: State)
    requires n < |events| && Invalidating(t)
    ensures Fate(events, n + 1, t, n)
  {
    assert SameTransition(events, n, n + 1);
  }

  lemma {:induction false} FatesOnRun(start: State, events: seq<Event>, n: nat)
    requires n <= |events| && IsStart(start) && StateAt(start, events, n).Some?
    ensures Fates(events, n, StateAt(start, events, n).value)
  {
    hide Step, Fates, Inv;
    if n == 0 {
      StartFates(start, events);
    } else {
      FatesOnRun(start, events, n - 1);
      RunInv(start, events, n - 1);
      var s := StateAt(start, events, n - 1).value;
      assert Shape(s) by { ShapeFromInv(start, events, n - 1); }
      FatesStep(events, n - 1, s);
    }
  }

  lemma StartFates(start: State, events: seq<Event>)
    requires IsStart(start)
    ensures Fates(events, 0, start)
  {}

  lemma ShapeFromInv(start: State, events: seq<Event>, n: nat)
    requires n <= |events| && Inv(start, events, n)
    ensures Shape(StateAt(start, events, n).value)
  {
    hide Shape, EntriesInvalidate, PendingInvalidated, ReviewOnDisk, QaOnDisk, PhasesBacked;
  }

  /** A transition that invalidated the review after b was killed before it saved its phase. */
  ghost predicate LostAfter(events: seq<Event>, b: nat, t: nat) {
    exists i: nat, c: nat :: b < i < c < t <= |events| && events[i] == Durable(InvalidateReview) && Lost(events, i, c)
  }

  /** Behind the last gate of qa an invalidation of the review belongs to a killed transition. */
  lemma InvalidatedAfterIsLost(start: State, events: seq<Event>, t: nat, b: nat, i: nat)
    requires IsStart(start) && Run(start, events) && t < |events| && EntersPhase(events[t], Acceptance)
    requires LastGate(events, t, b, Qa, PAST_REVIEW) && b < i < t && events[i] == Durable(InvalidateReview)
    ensures LostAfter(events, b, t)
  {
    hide Step, IsStart, SameTransition, Shape, Inv;
    PrefixRuns(start, events, |events|, t + 1);
    PrefixRuns(start, events, |events|, t);
    RunInv(start, events, t);
    ShapeFromInv(start, events, t);
    FatesOnRun(start, events, t);
    var s := StateAt(start, events, t).value;
    StepShape(s, events[t]);
    assert Fate(events, t, s, i);
    var c: nat :| c < t && (Lost(events, i, c) || Arrived(events, i, c));
    assert i < c by { SameIsAfter(events, i, c); }
    assert StaysBehind(events[c], Qa, PAST_REVIEW);
    assert Lost(events, i, c);
  }

  lemma SameIsAfter(events: seq<Event>, i: nat, c: nat)
    requires SameTransition(events, i, c)
    ensures i < c
  {}

  ghost predicate NoReviewAfter(events: seq<Event>, b: nat, t: nat) {
    forall w :: b < w < t <= |events| ==> !events[w].ReviewWritten?
  }

  /**
   On every run that enters acceptance with no review written since qa opened, the review that opened
   it still stands exactly when no transition was killed between its invalidation of the review and
   the save of its phase.
   */
  lemma ReviewStandsUnlessLost(start: State, events: seq<Event>, t: nat, r: nat, b: nat)
    requires IsStart(start) && Run(start, events) && t < |events| && EntersPhase(events[t], Acceptance)
    requires OpenedQa(start, events, t, r, b)
    requires NoReviewAfter(events, b, t)
    ensures StateAt(start, events, t).Some?
    ensures StateAt(start, events, t).value.disk.review == Some(events[r].review) <==> !LostAfter(events, b, t)
  {
    hide StateAt, IsStart, AfterInvalidations, EntersPhase, Run, ReviewIsClean, LastGate;
    ReviewStandsUntouched(start, events, t, r, b);
    if !Untouched(events, b, t, InvalidateReview) {
      var i: nat :| b < i < t && Touches(events[i], InvalidateReview);
      InvalidatedAfterIsLost(start, events, t, b, i);
    }
    if LostAfter(events, b, t) {
      var i: nat, c: nat :| b < i < c < t && events[i] == Durable(InvalidateReview) && Lost(events, i, c);
      assert Touches(events[i], InvalidateReview);
    }
  }

  /** Where no transition is killed there, only another review can replace the one that opened qa. */
  lemma ReviewStandsWithoutKills(start: State, events: seq<Event>, t: nat, r: nat, b: nat)
    requires IsStart(start) && Run(start, events) && t < |events| && EntersPhase(events[t], Acceptance)
    requires OpenedQa(start, events, t, r, b)
    requires !LostAfter(events, b, t)
    ensures Untouched(events, b, t, InvalidateReview) <==> NoReviewAfter(events, b, t)
    ensures NoReviewAfter(events, b, t) ==>
      StateAt(start, events, t).Some? && StateAt(start, events, t).value.disk.review == Some(events[r].review)
  {
    hide StateAt, IsStart, AfterInvalidations, EntersPhase, Run, ReviewIsClean, LastGate, LostAfter;
    if NoReviewAfter(events, b, t) {
      ReviewStandsUnlessLost(start, events, t, r, b);
      ReviewStandsUntouched(start, events, t, r, b);
    }
    if Untouched(events, b, t, InvalidateReview) {
      forall w | b < w < t ensures !events[w].ReviewWritten? {
        assert !Touches(events[w], InvalidateReview);
      }
    }
  }
}
