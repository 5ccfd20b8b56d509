/** `transition` of omg_cli/autopilot.py and the writers beside it, changing the files one write at a time. */
module AutopilotCode {
  import opened Options
  import opened Autopilot

  lemma ApplyFirst(d: Disk, w: Write, rest: seq<Write>)
    ensures ApplyAll(d, [w] + rest) == ApplyAll(Apply(d, w), rest)
  {
    hide Apply;
    assert ([w] + rest)[1..] == rest;
  }

  lemma {:induction false} ApplyAppend(d: Disk, a: seq<Write>, b: seq<Write>)
    ensures ApplyAll(d, a + b) == ApplyAll(ApplyAll(d, a), b)
    decreases |a|
  {
    hide Apply;
    if |a| == 0 {
      assert a + b == b;
    } else {
      assert (a + b)[1..] == a[1..] + b;
      ApplyAppend(Apply(d, a[0]), a[1..], b);
    }
  }

  lemma ApplyTwo(d: Disk, a: Write, b: Write)
    ensures ApplyAll(d, [a, b]) == Apply(Apply(d, a), b)
  {
    hide Apply;
    assert [a, b] == [a] + [b] && [b] == [b] + [];
    ApplyFirst(d, a, [b]);
    ApplyFirst(Apply(d, a), b, []);
  }

  const NO_EVIDENCE := Evidence(false, false, false, false, false)
  const ALL_EVIDENCE := Evidence(true, true, true, true, true)

  /**
   Evidence without break-glass counts for nothing, and the gates of qa and acceptance read none;
   with break-glass it opens ralplan, implement and review by itself.
   */
  lemma EvidenceNeedsBreakGlass(d: Disk, next: Phase, ev: Evidence)
    ensures !ev.breakGlass || next !in {Ralplan, Implement, Review} ==>
      (Allowed(d, next, ev) <==> Allowed(d, next, NO_EVIDENCE))
    ensures next in {Ralplan, Implement, Review} ==>
      (Allowed(d, next, ALL_EVIDENCE) <==>
       next in Manual(d.side.phase) && !d.status.terminal && !d.status.cancelPending)
    ensures Allowed(d, next, NO_EVIDENCE) ==> Allowed(d, next, ev)
  {
    hide ReviewIsClean, QaIsClean, ConsensusReady, Manual, WorkspaceMoved, ReceiptUnlocks;
  }

  /**
   Nothing on disk comes from behind the interview: no phase, no cycle, no consensus, stamp or receipt that
   counts.
   */
  predicate StillInInterview(d: Disk) {
    && d.side.phase == Interview && d.side.ralplanCycles == 0
    && (forall phase :: phase in d.side.history ==> phase !in {Ralplan, Implement, Review, Rework, Qa, Acceptance})
    && (d.consensus.Some? ==> !d.consensus.value.ours) && (d.receipt.Some? ==> !d.receipt.value.live)
    && !ReviewIsClean(d.review, d.workspace) && !QaIsClean(d.qa, d.workspace)
  }

  /** The files of one run under .omg/state, and the working tree. */
  class RunFiles {
    var side: Side
    var status: Status
    var review: Option<ReviewStamp>
    var qa: Option<QaStamp>
    var consensus: Option<Consensus>
    var receipt: Option<ReceiptFile>
    var interviewDone: bool
    var workspace: Workspace

    /** `start_autopilot` */
    constructor (skipInterview: bool, nonce: nat, tree: Workspace)
      ensures Now() == Started(skipInterview, nonce, tree).disk
    {
      var phase := if skipInterview then Ralplan else Interview;
      side := Side(phase, phase, nonce, Some(if skipInterview then 1 else 0), 0, 0, 0, [phase], None, None, None, None);
      status := Status(false, false, false, nonce, phase);
      review, qa, consensus, receipt, interviewDone, workspace := None, None, None, None, false, tree;
    }

    function Now(): Disk
      reads this
    {
      Disk(side, status, review, qa, consensus, receipt, interviewDone, workspace)
    }

    /** `invalidate_quality_stages`: neither stamp opens a gate again, whatever the workspace becomes. */
    method InvalidateQualityStages()
      modifies `review, `qa
      ensures Now() == ApplyAll(old(Now()), QUALITY)
      ensures forall tree :: !ReviewIsClean(review, tree) && !QaIsClean(qa, tree)
      ensures (review.None? <==> old(review).None?) && (qa.None? <==> old(qa).None?)
      ensures forall next, ev :: next in {Qa, Acceptance} ==> !Allowed(Now(), next, ev)
    {
      ApplyTwo(Now(), InvalidateReview, InvalidateQa);
      if review.Some? { review := Some(review.value.(clean := false, invalidated := true, writer := true)); }
      if qa.Some? { qa := Some(qa.value.(clean := false, invalidated := true, writer := true, statusClean := false)); }
    }

    /** `_history_has_post_interview_phases` */
    method HistoryIsPostInterview() returns (post: bool)
      ensures post <==> exists i ::
        0 <= i < |side.history| && side.history[i] in {Ralplan, Implement, Review, Rework, Qa, Acceptance}
    {
      for i := 0 to |side.history|
        invariant forall j :: 0 <= j < i ==> side.history[j] !in {Ralplan, Implement, Review, Rework, Qa, Acceptance}
      {
        if side.history[i] in {Ralplan, Implement, Review, Rework, Qa, Acceptance} { return true; }
      }
      return false;
    }

    /**
     `_normalize_ralplan_epoch`: an epoch on record stands; a missing one becomes zero exactly in a run that
     shows no trace of having left the interview.  At zero, and only there, the next ralplan entry
     invalidates nothing.
     */
    method NormalizeEpoch() returns (epoch: nat)
      ensures epoch == Epoch(Now())
      ensures side.epoch.Some? ==> epoch == side.epoch.value
      ensures side.epoch.None? ==> (epoch == 0 <==> StillInInterview(Now()))
      ensures side.epoch.None? && epoch > 0 ==>
        epoch >= side.ralplanCycles && (epoch > 1 ==> epoch == side.ralplanCycles)
      ensures epoch == 0 <==> Invalidations(Now(), Ralplan) == []
    {
      hide ReviewIsClean, QaIsClean;
      if side.epoch.Some? { return side.epoch.value; }
      var post := HistoryIsPostInterview();
      assert forall i :: 0 <= i < |side.history| ==> side.history[i] in side.history;
      if side.phase == Interview && !(consensus.Some? && consensus.value.ours) && side.ralplanCycles == 0 && !post
         && !ReviewIsClean(review, workspace) && !QaIsClean(qa, workspace) && LiveReceipt(Now()).None?
      {
        return 0;
      }
      return if side.ralplanCycles > 1 then side.ralplanCycles else 1;
    }

    /** The gates of `transition`, in the order the code asks them. */
    method CheckGates(next: Phase, ev: Evidence) returns (ok: bool)
      ensures ok <==> Allowed(Now(), next, ev)
      ensures !ev.breakGlass || next !in {Ralplan, Implement, Review} ==> (ok <==> Allowed(Now(), next, NO_EVIDENCE))
      ensures ev == ALL_EVIDENCE && next in {Ralplan, Implement, Review} ==>
        (ok <==> next in Manual(side.phase) && !status.terminal && !status.cancelPending)
    {
      hide ReviewIsClean, QaIsClean, HasWork, ConsensusReady, Manual;
      EvidenceNeedsBreakGlass(Now(), next, ev);
      if status.terminal || status.cancelPending || next !in Manual(side.phase) { return false; }
      if next == Ralplan && side.phase == Interview && !interviewDone && !(ev.interviewComplete && ev.breakGlass) {
        return false;
      }
      if next == Implement && !ConsensusReady(Now()) && !(ev.consensus && ev.breakGlass) { return false; }
      if next == Qa && !ReviewIsClean(review, workspace) { return false; }
      if next == Acceptance && !QaIsClean(qa, workspace) { return false; }
      if next == Review && side.phase in {Implement, Blocked} && !HasWork(Now(), ev) { return false; }
      return true;
    }

    /** The invalidations of `transition` with the new side file built up beside them, not yet saved. */
    method Prepare(next: Phase, lease: Lease) returns (state: Side)
      modifies `review, `qa, `receipt, `consensus
      ensures Now() == ApplyAll(old(Now()), Invalidations(old(Now()), next))
      ensures forall nonce :: Finish(old(side.phase), state, next, nonce) == Moved(old(Now()), next, lease, nonce)
    {
      hide Epoch, ApplyAll, Apply, Allowed, ReviewIsClean, QaIsClean;
      ghost var before := Now();
      var src := side.phase;
      state := side;
      assert ApplyAll(before, []) == before by { ApplyNone(before); }
      if next == Implement {
        InvalidateQualityStages();
        ApplyAppend(before, QUALITY, [InvalidateReceipt]);
        ApplyOne(Now(), InvalidateReceipt);
        InvalidateReceiptFile();
        state := state.(expected := Some(lease), binder := None, entryFingerprint := Some(workspace.fingerprint));
      }
      if next == Ralplan {
        var epoch := NormalizeEpoch();
        if epoch == 0 {
          state := state.(epoch := Some(1));
        } else {
          state := state.(ralplanCycles := state.ralplanCycles + 1);
          InvalidateQualityStages();
          ApplyAppend(before, QUALITY, [InvalidateConsensus]);
          ApplyOne(Now(), InvalidateConsensus);
          InvalidateRalplanConsensus();
          state := state.(epoch := Some(epoch + 1));
        }
      }
      if next == Rework {
        state := state.(reviewCycles := state.reviewCycles + 1);
        InvalidateQualityStages();
      }
      if next == Review && src in {Rework, Implement, Blocked} {
        InvalidateQualityStages();
      }
      if src == Qa && next == Ralplan {
        state := state.(qaCycles := state.qaCycles + 1);
      }
    }

    /** `invalidate_implementation_receipt` */
    method InvalidateReceiptFile()
      modifies `receipt
      ensures Now() == Apply(old(Now()), InvalidateReceipt)
    {
      if receipt.Some? { receipt := Some(receipt.value.(live := false)); }
    }

    /** `invalidate_ralplan_consensus` */
    method InvalidateRalplanConsensus()
      modifies `consensus
      ensures Now() == Apply(old(Now()), InvalidateConsensus)
    {
      if consensus.Some? && consensus.value.ours { consensus := Some(consensus.value.(accepted := false)); }
    }

    /** `transition`: refused with nothing changed, or all of its writes made in order. */
    method Transition(next: Phase, ev: Evidence, lease: Lease, nonce: nat) returns (ok: bool)
      modifies this
      ensures ok <==> Allowed(old(Now()), next, ev)
      ensures Now() == if ok then ApplyAll(old(Now()), TransitionWrites(old(Now()), next, lease, nonce)) else old(Now())
    {
      hide Epoch, ApplyAll, Apply, Allowed, Moved, Invalidations;
      ghost var before := Now();
      ok := CheckGates(next, ev);
      if !ok { return; }
      var src := side.phase;
      var state := Prepare(next, lease);
      ghost var invalidated := Now();
      state := Finish(src, state, next, nonce);
      var moved := state;
      ApplyAppend(before, Invalidations(before, next), [SavePhase(moved), SaveStatus(nonce, next)]);
      ApplyTwo(invalidated, SavePhase(moved), SaveStatus(nonce, next));
      SaveBoth(moved, nonce, next);
    }

    /** `_save` and `write_status` */
    method SaveBoth(moved: Side, nonce: nat, phase: Phase)
      modifies `side, `status
      ensures Now() == Apply(Apply(old(Now()), SavePhase(moved)), SaveStatus(nonce, phase))
    {
      side := moved;
      status := status.(nonce := nonce, authorityPhase := phase);
    }

    /** `stamp_implementation_receipt` of the present workspace: with it, review opens on no evidence at all. */
    method StampReceipt(lease: Lease) returns (ok: bool)
      modifies `receipt, `side
      ensures ok ==> ReceiptUnlocks(Now()) && LiveReceipt(Now()).value.lease == lease
      ensures ok ==> forall ev :: Allowed(Now(), Review, ev)
      ensures ok <==> ReceiptAllowed(old(Now()))
      ensures Now() == if ok then ApplyAll(old(Now()), ReceiptWrites(old(Now()), lease)) else old(Now())
    {
      if status.terminal || status.cancelPending || side.phase != Implement { return false; }
      var record := Receipt(lease, workspace.fingerprint);
      ApplyTwo(Now(), SaveReceipt(record), SaveBinder(side.(expected := Some(lease), binder := Some(record))));
      receipt := Some(ReceiptFile(record, true));
      side := side.(expected := Some(lease), binder := Some(record));
      return true;
    }

    /** `complete_with_acceptance` with an acceptance run that passes: once, and nothing follows. */
    method CompleteWithAcceptance(nonce: nat) returns (ok: bool)
      modifies `side, `status
      ensures ok ==> side.phase == side.authorityPhase == status.authorityPhase == Verified
      ensures ok ==> side.nonce == status.nonce == nonce && side.history == old(side).history + [Verified]
      ensures ok ==> status.verified && (old(status).verified || status.terminal)
      ensures ok ==> !CompletionAllowed(Now()) && forall next, ev :: !Allowed(Now(), next, ev)
      ensures ok <==> CompletionAllowed(old(Now()))
      ensures Now() == if ok then ApplyAll(old(Now()), CompletionWrites(old(Now()), nonce)) else old(Now())
    {
      hide ApplyAll;
      ghost var before := Now();
      if side.phase != Acceptance || side.authorityPhase != Acceptance || status.authorityPhase != Acceptance
          || side.nonce != status.nonce {
        return false;
      }
      var moved := side.(phase := Verified, authorityPhase := Verified, nonce := nonce,
                         history := side.history + [Verified]);
      if !status.verified {
        if status.terminal || status.cancelPending { return false; }
        ApplyFirst(before, VerifyStatus, [SavePhase(moved), SaveStatus(nonce, Verified)]);
        status := status.(terminal := true, verified := true);
      } else {
        assert [] + [SavePhase(moved), SaveStatus(nonce, Verified)] == [SavePhase(moved), SaveStatus(nonce, Verified)];
      }
      ApplyTwo(Now(), SavePhase(moved), SaveStatus(nonce, Verified));
      SaveBoth(moved, nonce, Verified);
      return true;
    }
  }

  lemma ApplyNone(d: Disk)
    ensures ApplyAll(d, []) == d
  {}

  lemma ApplyOne(d: Disk, w: Write)
    ensures ApplyAll(d, [w]) == Apply(d, w)
  {
    hide Apply;
    assert [w] == [w] + [];
    ApplyFirst(d, w, []);
  }

  /** The fields every transition sets last. */
  function Finish(src: Phase, state: Side, next: Phase, nonce: nat): Side {
    state.(phase := next, authorityPhase := next, nonce := nonce, history := state.history + [next],
           blockedFrom := if next == Blocked then Some(src) else None)
  }
}
