/**
 The side file of Autopilot on every run, read off the events: its history and counts, the fingerprint of the
 last implement entry and the bound receipt; and from it exactly when a review may begin.
 */
module AutopilotEntries {
  import opened Options
  import opened Autopilot
  import opened AutopilotRuns
  import opened AutopilotGates
  import opened AutopilotOpens

  // ---------- what the events say ----------

  /** The last phase save of implement is at a, and its transition began at b. */
  ghost predicate LastEntry(events: seq<Event>, n: nat, b: nat, a: nat)
    requires n <= |events|
  {
    && b < a < n && events[b].Begin? && events[b].next == Implement && EntersPhase(events[a], Implement)
    && SameTransition(events, b, a)
    && forall e :: a < e < n ==> !EntersPhase(events[e], Implement)
  }

  /** The workspace fingerprint when event b came. */
  ghost predicate FingerprintAt(start: State, events: seq<Event>, b: nat, f: nat) {
    b <= |events| && StateAt(start, events, b).Some? && StateAt(start, events, b).value.disk.workspace.fingerprint == f
  }

  predicate TouchesReceipt(e: Event) { e.Durable? && (e.write.SaveReceipt? || e.write.InvalidateReceipt?) }

  /** The receipt file was last touched at a, to hold r. */
  ghost predicate LastReceipt(events: seq<Event>, n: nat, a: nat, r: Receipt)
    requires n <= |events|
  {
    a < n && events[a] == Durable(SaveReceipt(r)) && forall e :: a < e < n ==> !TouchesReceipt(events[e])
  }

  predicate TouchesBinder(e: Event) { EntersPhase(e, Implement) || (e.Durable? && e.write.SaveBinder?) }

  /** The last thing done to the binder, at b, was to bind r. */
  ghost predicate LastBinding(events: seq<Event>, n: nat, b: nat, r: Receipt)
    requires n <= |events|
  {
    && b < n && events[b].Durable? && events[b].write.SaveBinder? && events[b].write.side.binder == Some(r)
    && forall e :: b < e < n ==> !TouchesBinder(events[e])
  }

  /** The phases saved before n, in order. */
  function Saved(events: seq<Event>, n: nat): seq<Phase>
    requires n <= |events|
  {
    if n == 0 then []
    else
      var e := events[n - 1];
      Saved(events, n - 1) + if e.Durable? && e.write.SavePhase? then [e.write.side.phase] else []
  }

  function Count(h: seq<Phase>, p: Phase): nat {
    if |h| == 0 then 0 else Count(h[..|h| - 1], p) + if h[|h| - 1] == p then 1 else 0
  }

  /** How often one phase follows directly on another. */
  function Follows(h: seq<Phase>, p: Phase, q: Phase): nat {
    if |h| < 2 then 0
    else Follows(h[..|h| - 1], p, q) + if h[|h| - 2] == p && h[|h| - 1] == q then 1 else 0
  }

  // ---------- the history ----------

  /** Phase, cycles and the phase blocked from are those of the history. */
  predicate OfHistory(side: Side) {
    var h := side.history;
    && |h| > 0 && side.phase == side.authorityPhase == h[|h| - 1]
    && side.reviewCycles == Count(h, Rework) && side.qaCycles == Follows(h, Qa, Ralplan)
    && side.blockedFrom == if side.phase == Blocked && |h| > 1 then Some(h[|h| - 2]) else None
  }

  ghost predicate HistoryKept(start: State, events: seq<Event>, n: nat, s: State)
    requires n <= |events|
  {
    && OfHistory(s.disk.side) && s.disk.side.history == [start.disk.side.phase] + Saved(events, n)
    && (s.pending.Some? ==> forall w :: w in s.pending.value ==>
          && (w.SavePhase? ==> OfHistory(w.side) && w.side.history == s.disk.side.history + [w.side.phase])
          && (w.SaveBinder? ==> OfHistory(w.side) && w.side.history == s.disk.side.history))
  }

  lemma Appended(h: seq<Phase>, p: Phase, q: Phase)
    requires |h| > 0
    ensures Count(h + [p], q) == Count(h, q) + if p == q then 1 else 0
    ensures Follows(h + [p], Qa, Ralplan) ==
      Follows(h, Qa, Ralplan) + if h[|h| - 1] == Qa && p == Ralplan then 1 else 0
  {
    assert (h + [p])[..|h|] == h;
  }

  lemma MovedHistory(d: Disk, next: Phase, lease: Lease, nonce: nat)
    requires OfHistory(d.side)
    ensures OfHistory(Moved(d, next, lease, nonce))
    ensures Moved(d, next, lease, nonce).history == d.side.history + [next]
  {
    hide Epoch, Count, Follows;
    Appended(d.side.history, next, Rework);
  }

  lemma VerifiedHistory(d: Disk, nonce: nat)
    requires OfHistory(d.side) && CompletionAllowed(d)
    ensures var todo := CompletionWrites(d, nonce);
      forall w :: w in todo && w.SavePhase? ==> OfHistory(w.side) && w.side.history == d.side.history + [w.side.phase]
  {
    hide Count, Follows;
    Appended(d.side.history, Verified, Rework);
  }

  lemma HistoryStep(start: State, events: seq<Event>, n: nat, s: State)
    requires n < |events| && Shape(s) && Step(s, events[n]).Some? && HistoryKept(start, events, n, s)
    ensures HistoryKept(start, events, n + 1, Step(s, events[n]).value)
  {
    hide Moved, Allowed, Epoch, ReceiptAllowed, CompletionAllowed, Count, Follows, CompletionWrites, Shape, OfHistory;
    var e, t := events[n], Step(s, events[n]).value;
    if e.Begin? {
      MovedHistory(s.disk, e.next, e.lease, e.nonce);
      MovedFields(s.disk, e.next, e.lease, e.nonce);
    } else if e.BeginCompletion? {
      VerifiedHistory(s.disk, e.nonce);
      CompletionSaves(s.disk, e.nonce);
    } else if e.BeginReceipt? {
      SameHistory(s.disk.side, e.lease, Receipt(e.lease, s.disk.workspace.fingerprint));
    } else if e.Durable? && e.write.SavePhase? {
      AfterPhase(s, e);
      var h := [start.disk.side.phase];
      assert h + Saved(events, n) + [e.write.side.phase] == h + (Saved(events, n) + [e.write.side.phase]);
    }
    if !(e.Durable? && e.write.SavePhase?) {
      assert Saved(events, n) + [] == Saved(events, n);
    }
  }

  lemma SameHistory(side: Side, lease: Lease, r: Receipt)
    requires OfHistory(side)
    ensures OfHistory(side.(expected := Some(lease), binder := Some(r)))
  {}

  lemma CompletionSaves(d: Disk, nonce: nat)
    ensures forall w :: w in CompletionWrites(d, nonce) ==> !w.SaveBinder? && !w.SaveReceipt? && !w.InvalidateReceipt?
    ensures forall w :: w in CompletionWrites(d, nonce) && w.SavePhase? ==>
      w.side == d.side.(phase := Verified, authorityPhase := Verified, nonce := nonce,
                        history := d.side.history + [Verified])
  {}

  lemma {:induction false} HistoryOnRun(start: State, events: seq<Event>, n: nat)
    requires n <= |events| && IsStart(start) && StateAt(start, events, n).Some?
    ensures HistoryKept(start, events, n, StateAt(start, events, n).value)
  {
    hide Step, HistoryKept, Inv;
    if n == 0 {
      StartHistory(start, events);
    } else {
      HistoryOnRun(start, events, n - 1);
      RunInv(start, events, n - 1);
      InvShape(start, events, n - 1);
      HistoryStep(start, events, n - 1, StateAt(start, events, n - 1).value);
    }
  }

  lemma StartHistory(start: State, events: seq<Event>)
    requires IsStart(start)
    ensures HistoryKept(start, events, 0, start)
  {
    assert forall p: Phase :: [p] + [] == [p] && [p][..0] == [];
  }

  // ---------- the implement entry ----------

  /** `f` is the fingerprint of the workspace when the last implement entry began; None while there was none. */
  ghost predicate EntryIs(start: State, events: seq<Event>, n: nat, f: Option<nat>)
    requires n <= |events|
  {
    match f
    case None => forall e :: 0 <= e < n ==> !EntersPhase(events[e], Implement)
    case Some(f) => exists b: nat, a: nat :: LastEntry(events, n, b, a) && FingerprintAt(start, events, b, f)
  }

  /** The transition pending at n began at b, into implement. */
  ghost predicate EntryPending(start: State, events: seq<Event>, n: nat, b: nat, f: nat)
    requires n <= |events|
  {
    b < n && events[b].Begin? && events[b].next == Implement && SameTransition(events, b, n)
    && FingerprintAt(start, events, b, f)
  }

  ghost predicate SomeEntryPending(start: State, events: seq<Event>, n: nat, f: nat)
    requires n <= |events|
  {
    exists b: nat :: EntryPending(start, events, n, b, f)
  }

  ghost predicate EntryKept(start: State, events: seq<Event>, n: nat, s: State)
    requires n <= |events|
  {
    && EntryIs(start, events, n, s.disk.side.entryFingerprint)
    && (s.pending.Some? ==> forall w :: w in s.pending.value ==>
          && (w.SavePhase? ==>
                if w.side.phase == Implement
                then w.side.entryFingerprint.Some?
                     && SomeEntryPending(start, events, n, w.side.entryFingerprint.value)
                else w.side.entryFingerprint == s.disk.side.entryFingerprint)
          && (w.SaveBinder? ==> w.side.entryFingerprint == s.disk.side.entryFingerprint))
  }

  lemma MovedEntry(d: Disk, next: Phase, lease: Lease, nonce: nat)
    ensures var m := Moved(d, next, lease, nonce);
      m.phase == next
      && m.entryFingerprint == if next == Implement then Some(d.workspace.fingerprint) else d.side.entryFingerprint
  {
    hide Epoch;
  }

  lemma EntryStays(start: State, events: seq<Event>, n: nat, f: Option<nat>)
    requires n < |events| && EntryIs(start, events, n, f) && !EntersPhase(events[n], Implement)
    ensures EntryIs(start, events, n + 1, f)
  {
    hide StateAt, EntersPhase, SameTransition;
    if f.Some? {
      var b: nat, a: nat :| LastEntry(events, n, b, a) && FingerprintAt(start, events, b, f.value);
      assert LastEntry(events, n + 1, b, a);
    }
  }

  lemma EntrySaved(start: State, events: seq<Event>, n: nat, f: nat)
    requires n < |events| && EntersPhase(events[n], Implement)
    requires SomeEntryPending(start, events, n, f)
    ensures EntryIs(start, events, n + 1, Some(f))
  {
    hide StateAt, EntersPhase, SameTransition;
    var b: nat :| EntryPending(start, events, n, b, f);
    assert LastEntry(events, n + 1, b, n);
  }

  lemma EntryGoesOn(start: State, events: seq<Event>, n: nat, f: nat)
    requires n < |events| && !Boundary(events[n])
    requires SomeEntryPending(start, events, n, f)
    ensures SomeEntryPending(start, events, n + 1, f)
  {
    hide StateAt;
    var b: nat :| EntryPending(start, events, n, b, f);
    assert EntryPending(start, events, n + 1, b, f);
  }

  lemma EntryBegun(start: State, events: seq<Event>, n: nat, s: State)
    requires n < |events| && StateAt(start, events, n) == Some(s) && events[n].Begin? && events[n].next == Implement
    ensures SomeEntryPending(start, events, n + 1, s.disk.workspace.fingerprint)
  {
    hide StateAt;
    assert EntryPending(start, events, n + 1, n, s.disk.workspace.fingerprint);
  }

  lemma EntryStep(start: State, events: seq<Event>, n: nat, s: State)
    requires n < |events| && StateAt(start, events, n) == Some(s) && Shape(s) && Step(s, events[n]).Some?
    requires EntryKept(start, events, n, s)
    ensures EntryKept(start, events, n + 1, Step(s, events[n]).value)
  {
    hide Moved, Allowed, Epoch, CompletionAllowed, ReceiptAllowed, StateAt, EntryIs, SomeEntryPending, Shape;
    hide CompletionWrites;
    var e, t := events[n], Step(s, events[n]).value;
    if e.Durable? && e.write.SavePhase? {
      AfterPhase(s, e);
      if e.write.side.phase == Implement {
        EntrySaved(start, events, n, e.write.side.entryFingerprint.value);
      } else {
        EntryStays(start, events, n, s.disk.side.entryFingerprint);
      }
    } else {
      EntryStays(start, events, n, s.disk.side.entryFingerprint);
      if e.Begin? {
        MovedEntry(s.disk, e.next, e.lease, e.nonce);
        if e.next == Implement { EntryBegun(start, events, n, s); }
      } else if e.BeginCompletion? {
        CompletionSaves(s.disk, e.nonce);
      } else if s.pending.Some? && !Boundary(e) {
        forall f: nat | SomeEntryPending(start, events, n, f)
          ensures SomeEntryPending(start, events, n + 1, f)
        {
          EntryGoesOn(start, events, n, f);
        }
      }
    }
  }

  lemma {:induction false} EntryOnRun(start: State, events: seq<Event>, n: nat)
    requires n <= |events| && IsStart(start) && StateAt(start, events, n).Some?
    ensures EntryKept(start, events, n, StateAt(start, events, n).value)
  {
    hide Step, EntryKept, Inv;
    if n == 0 {
      StartEntry(start, events);
    } else {
      EntryOnRun(start, events, n - 1);
      RunInv(start, events, n - 1);
      InvShape(start, events, n - 1);
      EntryStep(start, events, n - 1, StateAt(start, events, n - 1).value);
    }
  }

  lemma StartEntry(start: State, events: seq<Event>)
    requires IsStart(start)
    ensures EntryKept(start, events, 0, start)
  {}

  /** There is one last implement entry. */
  lemma OneEntry(events: seq<Event>, n: nat, b: nat, a: nat, b': nat, a': nat)
    requires n <= |events| && LastEntry(events, n, b, a) && LastEntry(events, n, b', a')
    ensures a == a' && b == b'
  {
    hide EntersPhase;
    assert !(a < a') && !(a' < a);
    assert Boundary(events[b]) && Boundary(events[b']);
    assert !(b < b') && !(b' < b);
  }

  // ---------- the receipt and its binder ----------

  ghost predicate ReceiptIs(events: seq<Event>, n: nat, r: Option<Receipt>)
    requires n <= |events|
  {
    if r.Some? then exists a: nat :: LastReceipt(events, n, a, r.value)
    else forall a: nat, r: Receipt :: !LastReceipt(events, n, a, r)
  }

  ghost predicate BinderIs(events: seq<Event>, n: nat, r: Option<Receipt>)
    requires n <= |events|
  {
    if r.Some? then exists b: nat :: LastBinding(events, n, b, r.value)
    else forall b: nat, r: Receipt :: !LastBinding(events, n, b, r)
  }

  ghost predicate ReceiptsKept(events: seq<Event>, n: nat, s: State)
    requires n <= |events|
  {
    && ReceiptIs(events, n, LiveReceipt(s.disk)) && BinderIs(events, n, s.disk.side.binder)
    && (s.disk.side.binder.Some? ==> s.disk.side.expected == Some(s.disk.side.binder.value.lease))
    && (s.pending.Some? ==> forall w :: w in s.pending.value ==>
          && (w.SavePhase? ==>
                if w.side.phase == Implement then w.side.binder.None?
                else w.side.binder == s.disk.side.binder && w.side.expected == s.disk.side.expected)
          && (w.SaveBinder? ==>
                w.side.binder.Some? && w.side.expected == Some(w.side.binder.value.lease)
                && w.side.phase == Implement && w == s.pending.value[|s.pending.value| - 1]))
  }

  lemma MovedBinding(d: Disk, next: Phase, lease: Lease, nonce: nat)
    ensures var m := Moved(d, next, lease, nonce);
      m.phase == next && if next == Implement then m.binder.None? && m.expected == Some(lease)
                         else m.binder == d.side.binder && m.expected == d.side.expected
  {
    hide Epoch;
  }

  lemma ReceiptStep(events: seq<Event>, n: nat, s: State)
    requires n < |events| && Step(s, events[n]).Some? && ReceiptIs(events, n, LiveReceipt(s.disk))
    ensures ReceiptIs(events, n + 1, LiveReceipt(Step(s, events[n]).value.disk))
  {
    hide Allowed, CompletionAllowed, ReceiptAllowed, TransitionWrites, CompletionWrites, ReceiptWrites;
    var e, t := events[n], Step(s, events[n]).value;
    if TouchesReceipt(e) {
      if e.write.SaveReceipt? { assert LastReceipt(events, n + 1, n, e.write.receipt); }
    } else {
      assert LiveReceipt(t.disk) == LiveReceipt(s.disk);
      if LiveReceipt(s.disk).None? {
        var m := n + 1;
        forall a: nat, r: Receipt | LastReceipt(events, m, a, r) ensures LastReceipt(events, n, a, r) {
          assert TouchesReceipt(events[a]);
        }
      } else {
        var a: nat :| LastReceipt(events, n, a, LiveReceipt(s.disk).value);
        assert LastReceipt(events, n + 1, a, LiveReceipt(s.disk).value);
      }
    }
  }

  lemma BinderStays(events: seq<Event>, n: nat, r: Option<Receipt>)
    requires n < |events| && BinderIs(events, n, r) && !TouchesBinder(events[n])
    ensures BinderIs(events, n + 1, r)
  {
    hide EntersPhase;
    if r.None? {
      var m := n + 1;
      forall b: nat, r: Receipt | LastBinding(events, m, b, r) ensures LastBinding(events, n, b, r) {
        assert TouchesBinder(events[b]);
      }
    } else {
      var b: nat :| LastBinding(events, n, b, r.value);
      assert LastBinding(events, n + 1, b, r.value);
    }
  }

  lemma BinderTouched(events: seq<Event>, n: nat)
    requires n < |events| && events[n].Durable? && TouchesBinder(events[n])
    requires events[n].write.SaveBinder? ==> events[n].write.side.binder.Some?
    ensures BinderIs(events, n + 1, if events[n].write.SaveBinder? then events[n].write.side.binder else None)
  {
    if events[n].write.SaveBinder? { assert LastBinding(events, n + 1, n, events[n].write.side.binder.value); }
  }

  lemma ReceiptsStep(events: seq<Event>, n: nat, s: State)
    requires n < |events| && Shape(s) && Step(s, events[n]).Some? && ReceiptsKept(events, n, s)
    ensures ReceiptsKept(events, n + 1, Step(s, events[n]).value)
  {
    hide Moved, Allowed, Epoch, CompletionAllowed, CompletionWrites, ReceiptIs, BinderIs, LiveReceipt, Shape;
    var e, t := events[n], Step(s, events[n]).value;
    ReceiptStep(events, n, s);
    if e.Durable? && TouchesBinder(e) {
      BinderTouched(events, n);
      if e.write.SavePhase? { AfterPhase(s, e); } else { AfterBinder(s, e); }
    } else {
      BinderStays(events, n, s.disk.side.binder);
      if e.Begin? {
        MovedBinding(s.disk, e.next, e.lease, e.nonce);
      } else if e.BeginCompletion? {
        CompletionSaves(s.disk, e.nonce);
      } else if e.Durable? && e.write.SavePhase? {
        AfterPhase(s, e);
      }
    }
  }

  lemma AfterBinder(s: State, e: Event)
    requires Shape(s) && Step(s, e).Some? && e.Durable? && e.write.SaveBinder?
    requires s.pending.Some? ==> forall w :: w in s.pending.value && w.SaveBinder? ==>
      w == s.pending.value[|s.pending.value| - 1]
    ensures var t := Step(s, e).value; t.pending.Some? ==> forall w :: w in t.pending.value ==> !w.SavePhase?
  {
    var todo := s.pending.value;
    assert todo[0] in todo;
    if |todo| > 1 { assert todo[|todo| - 2].SavePhase? ==> todo[|todo| - 1].SaveStatus?; }
  }

  lemma {:induction false} ReceiptsOnRun(start: State, events: seq<Event>, n: nat)
    requires n <= |events| && IsStart(start) && StateAt(start, events, n).Some?
    ensures ReceiptsKept(events, n, StateAt(start, events, n).value)
  {
    hide Step, ReceiptsKept, Inv;
    if n == 0 {
      StartReceipts(start, events);
    } else {
      ReceiptsOnRun(start, events, n - 1);
      RunInv(start, events, n - 1);
      InvShape(start, events, n - 1);
      ReceiptsStep(events, n - 1, StateAt(start, events, n - 1).value);
    }
  }

  lemma StartReceipts(start: State, events: seq<Event>)
    requires IsStart(start)
    ensures ReceiptsKept(events, 0, start)
  {}

  // ---------- the side file ----------

  /**
   On every run the side file is what the events say: its history is every phase saved, its cycles count
   rework saved and ralplan saved after qa, its entry fingerprint is the workspace's when the last implement
   entry began, and its binder is the receipt bound last since then.
   */
  lemma SideOnRun(start: State, events: seq<Event>, n: nat)
    requires n <= |events| && IsStart(start) && StateAt(start, events, n).Some?
    ensures var side := StateAt(start, events, n).value.disk.side;
      && side.history == [start.disk.side.phase] + Saved(events, n) && OfHistory(side)
      && EntryIs(start, events, n, side.entryFingerprint) && BinderIs(events, n, side.binder)
      && (side.binder.Some? ==> side.expected == Some(side.binder.value.lease))
  {
    hide OfHistory, EntryIs, BinderIs, ReceiptIs, StateAt;
    HistoryOnRun(start, events, n);
    EntryOnRun(start, events, n);
    ReceiptsOnRun(start, events, n);
  }

  /** Where status.json carries the side file's nonce, it names the side file's phase. */
  predicate StatusAgrees(d: Disk) {
    d.side.nonce == d.status.nonce ==> d.status.authorityPhase == d.side.phase
  }

  lemma StatusStep(s: State, e: Event)
    requires PendingBinds(s) && Shape(s) && Step(s, e).Some? && StatusAgrees(s.disk)
    ensures StatusAgrees(Step(s, e).value.disk)
  {
    hide Allowed, CompletionAllowed, ReceiptAllowed, TransitionWrites, CompletionWrites, ReceiptWrites;
  }

  lemma {:induction false} StatusOnRun(start: State, events: seq<Event>, n: nat)
    requires n <= |events| && IsStart(start) && StateAt(start, events, n).Some?
    ensures StatusAgrees(StateAt(start, events, n).value.disk)
  {
    hide Step, StatusAgrees, Inv, PendingBinds;
    if n == 0 {
      StartAgrees(start);
    } else {
      StatusOnRun(start, events, n - 1);
      RunInv(start, events, n - 1);
      InvShape(start, events, n - 1);
      BoundOnRun(start, events, n - 1);
      StatusStep(StateAt(start, events, n - 1).value, events[n - 1]);
    }
  }

  lemma StartAgrees(start: State)
    requires IsStart(start)
    ensures StatusAgrees(start.disk)
  {}

  /** Implement is only ever saved with no receipt live: what was stamped in an earlier cycle is gone. */
  ghost predicate NoneLive(s: State) {
    s.pending.Some? && PendingPhase(s).Some? ==>
      && (forall w :: w in s.pending.value ==> !w.SaveReceipt?)
      && (PendingPhase(s) == Some(Implement) && InvalidateReceipt !in s.pending.value ==> LiveReceipt(s.disk).None?)
  }

  lemma NoneLiveStep(s: State, e: Event)
    requires Shape(s) && Step(s, e).Some? && NoneLive(s)
    ensures NoneLive(Step(s, e).value)
  {
    hide Moved, Allowed, Epoch, CompletionAllowed, ReceiptAllowed, CompletionWrites;
    StepShape(s, e);
    if e.Begin? {
      InvalidationsOnly(s.disk, e.next);
      if e.next == Implement { assert Step(s, e).value.pending.value[2] == InvalidateReceipt; }
    } else if e.BeginCompletion? {
      CompletionSaves(s.disk, e.nonce);
    } else if e.Durable? {
      var todo := s.pending.value;
      assert todo == [e.write] + todo[1..];
    }
  }

  lemma {:induction false} NoneLiveOnRun(start: State, events: seq<Event>, n: nat)
    requires n <= |events| && IsStart(start) && StateAt(start, events, n).Some?
    ensures NoneLive(StateAt(start, events, n).value)
  {
    hide Step, NoneLive, Inv;
    if n == 0 {
      StartNoneLive(start);
    } else {
      NoneLiveOnRun(start, events, n - 1);
      RunInv(start, events, n - 1);
      InvShape(start, events, n - 1);
      NoneLiveStep(StateAt(start, events, n - 1).value, events[n - 1]);
    }
  }

  lemma StartNoneLive(start: State)
    requires IsStart(start)
    ensures NoneLive(start)
  {}

  lemma ImplementDropsReceipt(start: State, events: seq<Event>, t: nat)
    requires IsStart(start) && t < |events| && StateAt(start, events, t + 1).Some?
    requires EntersPhase(events[t], Implement)
    ensures LiveReceipt(StateAt(start, events, t + 1).value.disk).None?
    ensures StateAt(start, events, t + 1).value.disk.side.binder.None?
  {
    hide Inv, BinderIs, ReceiptIs;
    NoneLiveOnRun(start, events, t);
    RunInv(start, events, t);
    InvShape(start, events, t);
    ReceiptsOnRun(start, events, t);
    var s := StateAt(start, events, t).value;
    StepShape(s, events[t]);
    assert s.pending.value[0] in s.pending.value;
  }

  // ---------- the gate of a review ----------

  /**
   When a review may begin: from rework always; from implement and from blocked if the workspace has moved
   since the last implement entry began, or the receipt on disk is the one bound last since that entry
   and is of this very workspace, or break-glass evidence speaks of a receipt or of no change.
   */
  lemma ReviewOpensExactly(start: State, events: seq<Event>, t: nat, ev: Evidence, lease: Lease, nonce: nat)
    requires IsStart(start) && t <= |events| && StateAt(start, events, t).Some?
    ensures var s := StateAt(start, events, t).value;
      Step(s, Begin(Review, ev, lease, nonce)).Some? <==>
        && s.pending.None? && nonce !in {s.disk.side.nonce, s.disk.status.nonce}
        && !s.disk.status.terminal && !s.disk.status.cancelPending
        && (|| s.disk.side.phase == Rework
            || (s.disk.side.phase in {Implement, Blocked}
                && (|| MovedSinceEntry(start, events, t, s.disk.workspace.fingerprint)
                    || ReceiptStands(events, t, s.disk.workspace.fingerprint)
                    || (ev.breakGlass && (ev.receipt || ev.noChange)))))
  {
    hide StateAt, MovedSinceEntry, ReceiptStands, HasWork, Moved, Epoch, Invalidations;
    var s := StateAt(start, events, t).value;
    OpensExactly(s.disk, Review, ev);
    WorkExactly(start, events, t, ev);
  }

  /** The workspace fingerprint when the last implement entry began was another one. */
  ghost predicate MovedSinceEntry(start: State, events: seq<Event>, t: nat, f: nat)
    requires t <= |events|
  {
    exists b: nat, a: nat, g: nat :: LastEntry(events, t, b, a) && FingerprintAt(start, events, b, g) && g != f
  }

  ghost predicate ReceiptStands(events: seq<Event>, t: nat, f: nat)
    requires t <= |events|
  {
    exists a: nat, b: nat, r: Receipt :: LastReceipt(events, t, a, r) && LastBinding(events, t, b, r) && r.content == f
  }

  lemma WorkExactly(start: State, events: seq<Event>, t: nat, ev: Evidence)
    requires IsStart(start) && t <= |events| && StateAt(start, events, t).Some?
    ensures var d := StateAt(start, events, t).value.disk;
      HasWork(d, ev) <==>
        || MovedSinceEntry(start, events, t, d.workspace.fingerprint)
        || ReceiptStands(events, t, d.workspace.fingerprint)
        || (ev.breakGlass && (ev.receipt || ev.noChange))
  {
    hide StateAt, MovedSinceEntry, ReceiptStands, ReceiptUnlocks, WorkspaceMoved;
    MovedExactly(start, events, t);
    UnlocksExactly(start, events, t);
  }

  lemma MovedExactly(start: State, events: seq<Event>, t: nat)
    requires IsStart(start) && t <= |events| && StateAt(start, events, t).Some?
    ensures var d := StateAt(start, events, t).value.disk;
      WorkspaceMoved(d) <==> MovedSinceEntry(start, events, t, d.workspace.fingerprint)
  {
    hide StateAt, LastEntry, OfHistory, BinderIs;
    SideOnRun(start, events, t);
    var d := StateAt(start, events, t).value.disk;
    if d.side.entryFingerprint.Some? {
      var b: nat, a: nat :| LastEntry(events, t, b, a)
          && FingerprintAt(start, events, b, d.side.entryFingerprint.value);
      forall b': nat, a': nat, g: nat | LastEntry(events, t, b', a') && FingerprintAt(start, events, b', g)
        ensures g == d.side.entryFingerprint.value
      {
        OneEntry(events, t, b, a, b', a');
      }
    } else {
      forall b': nat, a': nat ensures !LastEntry(events, t, b', a') { NoEntry(events, t, b', a'); }
    }
  }

  lemma NoEntry(events: seq<Event>, t: nat, b: nat, a: nat)
    requires t <= |events| && forall e :: 0 <= e < t ==> !EntersPhase(events[e], Implement)
    ensures !LastEntry(events, t, b, a)
  {}

  lemma OneReceipt(events: seq<Event>, t: nat, a: nat, r: Receipt, a': nat, r': Receipt)
    requires t <= |events| && LastReceipt(events, t, a, r) && LastReceipt(events, t, a', r')
    ensures r == r'
  {
    assert TouchesReceipt(events[a]) && TouchesReceipt(events[a']);
  }

  lemma OneBinding(events: seq<Event>, t: nat, b: nat, r: Receipt, b': nat, r': Receipt)
    requires t <= |events| && LastBinding(events, t, b, r) && LastBinding(events, t, b', r')
    ensures r == r'
  {
    assert TouchesBinder(events[b]) && TouchesBinder(events[b']);
  }

  lemma UnlocksExactly(start: State, events: seq<Event>, t: nat)
    requires IsStart(start) && t <= |events| && StateAt(start, events, t).Some?
    ensures var d := StateAt(start, events, t).value.disk;
      ReceiptUnlocks(d) <==> ReceiptStands(events, t, d.workspace.fingerprint)
  {
    hide StateAt, LastReceipt, LastBinding, LiveReceipt;
    ReceiptsOnRun(start, events, t);
    var d := StateAt(start, events, t).value.disk;
    if ReceiptUnlocks(d) {
      var r := LiveReceipt(d).value;
      var a: nat :| LastReceipt(events, t, a, r);
      var b: nat :| LastBinding(events, t, b, r);
      assert LastReceipt(events, t, a, r) && LastBinding(events, t, b, r);
    }
    if ReceiptStands(events, t, d.workspace.fingerprint) {
      var a: nat, b: nat, r: Receipt :|
        LastReceipt(events, t, a, r) && LastBinding(events, t, b, r) && r.content == d.workspace.fingerprint;
      assert LiveReceipt(d).Some? && d.side.binder.Some?;
      var a': nat :| LastReceipt(events, t, a', LiveReceipt(d).value);
      var b': nat :| LastBinding(events, t, b', d.side.binder.value);
      OneReceipt(events, t, a, r, a', LiveReceipt(d).value);
      OneBinding(events, t, b, r, b', d.side.binder.value);
    }
  }

  /**
   Without break-glass evidence a review is entered from implement, or from blocked, only on work: the
   workspace is another one than when the last implement entry began, or a receipt of exactly this
   workspace was stamped after the last implement entry.
   */
  lemma ReviewNeedsWork(start: State, events: seq<Event>, t: nat)
    requires IsStart(start) && t < |events| && StateAt(start, events, t + 1).Some?
    requires events[t].Begin? && events[t].next == Review && !events[t].evidence.breakGlass
    requires StateAt(start, events, t).value.disk.side.phase in {Implement, Blocked}
    ensures var f := StateAt(start, events, t).value.disk.workspace.fingerprint;
      || (exists b: nat, a: nat, g: nat :: LastEntry(events, t, b, a) && FingerprintAt(start, events, b, g) && g != f)
      || (exists k: nat :: StampedSince(start, events, t, k, f))
  {
    hide Stamped, StampedSince, Step, LastEntry, LastReceipt, LastBinding;
    var s, e := StateAt(start, events, t).value, events[t];
    ReviewOpensExactly(start, events, t, e.evidence, e.lease, e.nonce);
    assert Begin(Review, e.evidence, e.lease, e.nonce) == e;
    var f := s.disk.workspace.fingerprint;
    if !MovedSinceEntry(start, events, t, f) {
      BinderStamped(start, events, t, f);
    }
  }

  lemma BinderStamped(start: State, events: seq<Event>, t: nat, f: nat)
    requires IsStart(start) && t <= |events| && StateAt(start, events, t).Some? && ReceiptStands(events, t, f)
    ensures exists k: nat :: StampedSince(start, events, t, k, f)
  {
    hide Stamped, StampedSince, StateAt, LastBinding, LastReceipt, LiveReceipt;
    BindersOnRun(start, events, t);
    ReceiptsOnRun(start, events, t);
    var s := StateAt(start, events, t).value;
    BinderOf(start, events, t, s);
    var a: nat, b: nat, r: Receipt :|
      LastReceipt(events, t, a, r) && LastBinding(events, t, b, r) && r.content == f;
    assert s.disk.side.binder.Some?;
    var b': nat :| LastBinding(events, t, b', s.disk.side.binder.value);
    OneBinding(events, t, b, r, b', s.disk.side.binder.value);
    StampedMeans(start, events, t, s.disk.side.binder);
  }
}
