/** From where, and on what, each step of Autopilot may begin, said field by field. */
module AutopilotOpens {
  import opened Options
  import opened Autopilot
  import opened AutopilotRuns

  predicate LanePasses(lane: Lane, diff: nat) {
    match lane
    case LaneStamp(trusted, invalidated, laneDiff, passes) => trusted && passes && !invalidated && laneDiff == diff
    case _ => false
  }

  /** A review stamp of this run's writer that passes this very workspace, in both lanes if it has any. */
  predicate ReviewPasses(r: ReviewStamp, ws: Workspace) {
    && r.writer && r.sameRun && r.clean && !r.invalidated && r.workspace == Some(ws.fingerprint)
    && (|| (r.diff == None && r.reviewer == NoLane && r.architect == NoLane)
        || (r.diff != None && LanePasses(r.reviewer, r.diff.value) && LanePasses(r.architect, r.diff.value)))
  }

  /** A QA stamp of this run's writer whose last cycle, if it has one, does not speak of another workspace. */
  predicate QaPasses(q: QaStamp, ws: Workspace) {
    && q.writer && q.sameRun && q.clean && q.statusClean && !q.invalidated
    && (q.last == None || (q.last.value.product in {None, Some(ws.product)}
                           && q.last.value.workspace in {None, Some(ws.fingerprint)}))
  }

  lemma ReviewCleanExactly(stamp: Option<ReviewStamp>, ws: Workspace)
    ensures ReviewIsClean(stamp, ws) <==> stamp != None && ReviewPasses(stamp.value, ws)
  {
    if stamp.Some? {
      assert forall lane: Lane, diff :: LaneClean(lane, diff) <==> LanePasses(lane, diff);
    }
  }

  lemma QaCleanExactly(stamp: Option<QaStamp>, ws: Workspace)
    ensures QaIsClean(stamp, ws) <==> stamp != None && QaPasses(stamp.value, ws)
  {}

  /** The table of transitions, by their destination. */
  function Sources(next: Phase): set<Phase> {
    match next
    case Interview => {Init, Blocked}
    case Ralplan => {Init, Interview, Review, Qa, Blocked}
    case Implement => {Ralplan, Blocked}
    case Review => {Implement, Rework, Blocked}
    case Rework => {Review, Qa}
    case Qa => {Review, Blocked}
    case Acceptance => {Qa}
    case Blocked => {Interview, Ralplan, Implement, Review, Rework, Qa, Acceptance}
    case _ => {}
  }

  lemma ManualExactly(src: Phase, next: Phase)
    ensures next in Manual(src) <==> src in Sources(next)
  {
    match src
    case Init =>
    case Interview =>
    case Ralplan =>
    case Implement =>
    case Review =>
    case Rework =>
    case Qa =>
    case Acceptance =>
    case Verified =>
    case Blocked =>
    case Cancelled =>
  }

  /** From where, and on what, each phase is entered. */
  lemma OpensExactly(d: Disk, next: Phase, ev: Evidence)
    ensures Allowed(d, next, ev) <==>
      && !d.status.terminal && !d.status.cancelPending && d.side.phase in Sources(next)
      && (next == Ralplan && d.side.phase == Interview ==> d.interviewDone || (ev.breakGlass && ev.interviewComplete))
      && (next == Implement ==> d.consensus == Some(Consensus(true, true, true)) || (ev.breakGlass && ev.consensus))
      && (next == Review && d.side.phase != Rework ==> HasWork(d, ev))
      && (next == Qa ==> d.review != None && ReviewPasses(d.review.value, d.workspace))
      && (next == Acceptance ==> d.qa != None && QaPasses(d.qa.value, d.workspace))
  {
    hide HasWork, Manual, ReviewIsClean, QaIsClean, ReviewPasses, QaPasses;
    ManualExactly(d.side.phase, next);
    ReviewCleanExactly(d.review, d.workspace);
    QaCleanExactly(d.qa, d.workspace);
  }

  /** When a receipt may be stamped, and when the completion may begin. */
  lemma OthersOpenExactly(s: State, lease: Lease, nonce: nat)
    ensures Step(s, BeginReceipt(lease)).Some? <==>
      s.pending == None && s.disk.side.phase == Implement && !s.disk.status.terminal && !s.disk.status.cancelPending
    ensures Step(s, BeginCompletion(nonce)).Some? <==>
      && s.pending == None && nonce !in {s.disk.side.nonce, s.disk.status.nonce}
      && s.disk.side.phase == s.disk.side.authorityPhase == s.disk.status.authorityPhase == Acceptance
      && s.disk.side.nonce == s.disk.status.nonce
      && (s.disk.status.verified || !(s.disk.status.terminal || s.disk.status.cancelPending))
  {}

  /** A run that has just started can be blocked; anything else needs evidence broken in. */
  lemma FirstSteps(skip: bool, nonce: nat, ws: Workspace, next: Phase, ev: Evidence, lease: Lease, other: nat)
    ensures Step(Started(skip, nonce, ws), Begin(next, ev, lease, other)).Some? <==>
      && other != nonce
      && (|| next == Blocked
          || (skip && next == Implement && ev.breakGlass && ev.consensus)
          || (!skip && next == Ralplan && ev.breakGlass && ev.interviewComplete))
  {
    hide HasWork, ReviewPasses, QaPasses, TransitionWrites, Allowed;
    OpensExactly(Started(skip, nonce, ws).disk, next, ev);
  }

  /** An invalidation closes its own gate for every workspace, and leaves what was measured to be read. */
  lemma InvalidationsClose(d: Disk, ws: Workspace, ev: Evidence)
    ensures var r := Apply(d, InvalidateReview);
      && r == d.(review := r.review) && !ReviewIsClean(r.review, ws) && (r.review == None <==> d.review == None)
      && (d.review.Some? ==>
            && r.review.value.invalidated && !r.review.value.clean
            && r.review.value.workspace == d.review.value.workspace && r.review.value.diff == d.review.value.diff
            && r.review.value.reviewer == d.review.value.reviewer
            && r.review.value.architect == d.review.value.architect)
    ensures var q := Apply(d, InvalidateQa);
      && q == d.(qa := q.qa) && !QaIsClean(q.qa, ws) && (q.qa == None <==> d.qa == None)
      && (d.qa.Some? ==>
            q.qa.value.invalidated && !q.qa.value.clean && !q.qa.value.statusClean
            && q.qa.value.last == d.qa.value.last)
    ensures var c := Apply(d, InvalidateConsensus);
      && c == d.(consensus := c.consensus)
      && (c.consensus.Some? && c.consensus.value.ours ==> !c.consensus.value.accepted)
      && (Allowed(c, Implement, ev) ==> ev.breakGlass && ev.consensus)
    ensures var x := Apply(d, InvalidateReceipt);
      && x == d.(receipt := x.receipt) && LiveReceipt(x) == None
  {
    hide Manual, HasWork;
  }
}
