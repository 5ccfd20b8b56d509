/**
 The Autopilot coordinator of omg_cli/autopilot.py: its stage stamps, the gates of `transition`, and
 a transition as the list of durable writes it makes, in order, so that a crash can fall between any
 two of them.  A fingerprint or a hash is a number; equal numbers stand for equal contents.
 */
module Autopilot {
  import opened Options

  datatype Phase =
    | Init | Interview | Ralplan | Implement | Review | Rework | Qa | Acceptance | Verified | Blocked | Cancelled

  /** MANUAL_TRANSITIONS */
  function Manual(src: Phase): set<Phase> {
    match src
    case Init => {Interview, Ralplan}
    case Interview => {Ralplan, Blocked}
    case Ralplan => {Implement, Blocked}
    case Implement => {Review, Blocked}
    case Review => {Qa, Rework, Ralplan, Blocked}
    case Rework => {Review, Blocked}
    case Qa => {Acceptance, Ralplan, Rework, Blocked}
    case Acceptance => {Blocked}
    case Blocked => {Interview, Ralplan, Implement, Review, Qa}
    case Verified => {}
    case Cancelled => {}
  }

  // ---------- stamps ----------

  /** The stamp of one lane inside the review stamp: null, not an object, or one with its verdict. */
  datatype Lane = NoLane | BadLane | LaneStamp(trusted: bool, invalidated: bool, diff: nat, passes: bool)

  datatype ReviewStamp = ReviewStamp(
    writer: bool, sameRun: bool, clean: bool, invalidated: bool,
    workspace: Option<nat>, diff: Option<nat>, reviewer: Lane, architect: Lane)

  datatype Cycle = Cycle(product: Option<nat>, workspace: Option<nat>)

  datatype QaStamp = QaStamp(writer: bool, sameRun: bool, clean: bool, statusClean: bool, invalidated: bool,
                             last: Option<Cycle>)

  /** The two hashes of the working tree. */
  datatype Workspace = Workspace(fingerprint: nat, product: nat)

  predicate LaneClean(lane: Lane, diff: nat) {
    lane.LaneStamp? && lane.trusted && !lane.invalidated && lane.diff == diff && lane.passes
  }

  /** A stamp that says clean and has not been invalidated. */
  predicate ReviewSaysClean(r: ReviewStamp) {
    r.writer && r.sameRun && !r.invalidated && r.clean
  }

  /** `stage_review_is_clean` */
  predicate ReviewIsClean(stamp: Option<ReviewStamp>, ws: Workspace) {
    && stamp.Some? && ReviewSaysClean(stamp.value) && stamp.value.workspace == Some(ws.fingerprint)
    && var r := stamp.value;
       if r.diff.None? && r.reviewer.NoLane? && r.architect.NoLane? then true
       else r.diff.Some? && LaneClean(r.reviewer, r.diff.value) && LaneClean(r.architect, r.diff.value)
  }

  predicate QaSaysClean(q: QaStamp) {
    q.writer && q.sameRun && !q.invalidated && q.clean && q.statusClean
  }

  /** `stage_qa_is_clean` */
  predicate QaIsClean(stamp: Option<QaStamp>, ws: Workspace) {
    && stamp.Some? && QaSaysClean(stamp.value)
    && (stamp.value.last.Some? ==>
          && (stamp.value.last.value.product.None? || stamp.value.last.value.product.value == ws.product)
          && (stamp.value.last.value.workspace.None? || stamp.value.last.value.workspace.value == ws.fingerprint))
  }

  // ---------- the files ----------

  datatype Lease = Lease(invocation: nat, generation: nat)

  datatype Receipt = Receipt(lease: Lease, content: nat)

  datatype ReceiptFile = ReceiptFile(receipt: Receipt, live: bool)

  datatype Consensus = Consensus(ours: bool, accepted: bool, wellFormed: bool)

  /** autopilot.json */
  datatype Side = Side(
    phase: Phase, authorityPhase: Phase, nonce: nat, epoch: Option<nat>,
    reviewCycles: nat, qaCycles: nat, ralplanCycles: nat, history: seq<Phase>, blockedFrom: Option<Phase>,
    entryFingerprint: Option<nat>, expected: Option<Lease>, binder: Option<Receipt>)

  /** The part of status.json that binds it to the side file. */
  datatype Status = Status(terminal: bool, verified: bool, cancelPending: bool, nonce: nat, authorityPhase: Phase)

  datatype Disk = Disk(
    side: Side, status: Status, review: Option<ReviewStamp>, qa: Option<QaStamp>,
    consensus: Option<Consensus>, receipt: Option<ReceiptFile>, interviewDone: bool, workspace: Workspace)

  datatype Evidence = Evidence(breakGlass: bool, interviewComplete: bool, consensus: bool, receipt: bool,
                               noChange: bool)

  predicate ConsensusReady(d: Disk) {
    d.consensus.Some? && d.consensus.value.ours && d.consensus.value.accepted && d.consensus.value.wellFormed
  }

  /** `read_implementation_receipt` */
  function LiveReceipt(d: Disk): Option<Receipt> {
    if d.receipt.Some? && d.receipt.value.live then Some(d.receipt.value.receipt) else None
  }

  /** The receipt on disk is the one bound to this implement cycle and to the present workspace. */
  predicate ReceiptUnlocks(d: Disk) {
    && LiveReceipt(d).Some? && d.side.expected.Some? && d.side.binder == LiveReceipt(d)
    && LiveReceipt(d).value.lease == d.side.expected.value
    && LiveReceipt(d).value.content == d.workspace.fingerprint
  }

  predicate WorkspaceMoved(d: Disk) {
    d.side.entryFingerprint.Some? && d.workspace.fingerprint != d.side.entryFingerprint.value
  }

  /** `_implementation_work_evidence` */
  predicate HasWork(d: Disk, ev: Evidence) {
    WorkspaceMoved(d) || ReceiptUnlocks(d) || (ev.breakGlass && (ev.receipt || ev.noChange))
  }

  /** `_normalize_ralplan_epoch` */
  function Epoch(d: Disk): nat {
    match d.side.epoch
    case Some(n) => n
    case None =>
      var post := exists i ::
        0 <= i < |d.side.history| && d.side.history[i] in {Ralplan, Implement, Review, Rework, Qa, Acceptance};
      if d.side.phase == Interview && !(d.consensus.Some? && d.consensus.value.ours) && d.side.ralplanCycles == 0
          && !post
         && !ReviewIsClean(d.review, d.workspace) && !QaIsClean(d.qa, d.workspace) && LiveReceipt(d).None?
      then 0 else if d.side.ralplanCycles > 1 then d.side.ralplanCycles else 1
  }

  // ---------- durable writes ----------

  datatype Write =
    | InvalidateReview | InvalidateQa | InvalidateReceipt | InvalidateConsensus
    | SavePhase(side: Side) | SaveStatus(nonce: nat, phase: Phase) | VerifyStatus
    | SaveReceipt(receipt: Receipt) | SaveBinder(side: Side)

  function Apply(d: Disk, w: Write): Disk {
    match w
    case InvalidateReview =>
      if d.review.None? then d
      else d.(review := Some(d.review.value.(clean := false, invalidated := true, writer := true)))
    case InvalidateQa =>
      if d.qa.None? then d
      else d.(qa := Some(d.qa.value.(clean := false, invalidated := true, writer := true, statusClean := false)))
    case InvalidateReceipt => if d.receipt.None? then d else d.(receipt := Some(d.receipt.value.(live := false)))
    case InvalidateConsensus =>
      if d.consensus.Some? && d.consensus.value.ours then d.(consensus := Some(d.consensus.value.(accepted := false)))
      else d
    case SavePhase(side) => d.(side := side)
    case SaveBinder(side) => d.(side := side)
    case SaveStatus(nonce, phase) => d.(status := d.status.(nonce := nonce, authorityPhase := phase))
    case VerifyStatus => d.(status := d.status.(terminal := true, verified := true))
    case SaveReceipt(receipt) => d.(receipt := Some(ReceiptFile(receipt, true)))
  }

  function ApplyAll(d: Disk, todo: seq<Write>): Disk
    decreases |todo|
  {
    if |todo| == 0 then d else ApplyAll(Apply(d, todo[0]), todo[1..])
  }

  // ---------- transition ----------

  /** The gate of the destination. */
  predicate GateOpen(d: Disk, next: Phase, ev: Evidence) {
    var src := d.side.phase;
    && (next == Ralplan && src == Interview ==> d.interviewDone || (ev.interviewComplete && ev.breakGlass))
    && (next == Implement ==> ConsensusReady(d) || (ev.consensus && ev.breakGlass))
    && (next == Qa ==> ReviewIsClean(d.review, d.workspace))
    && (next == Acceptance ==> QaIsClean(d.qa, d.workspace))
    && (next == Review && src in {Implement, Blocked} ==> HasWork(d, ev))
  }

  predicate Allowed(d: Disk, next: Phase, ev: Evidence) {
    !d.status.terminal && !d.status.cancelPending && next in Manual(d.side.phase) && GateOpen(d, next, ev)
  }

  const QUALITY := [InvalidateReview, InvalidateQa]

  /** What is invalidated on disk before the phase is saved. */
  function Invalidations(d: Disk, next: Phase): seq<Write> {
    if next == Implement then QUALITY + [InvalidateReceipt]
    else if next == Ralplan then (if Epoch(d) == 0 then [] else QUALITY + [InvalidateConsensus])
    else if next == Rework then QUALITY
    else if next == Review && d.side.phase in {Rework, Implement, Blocked} then QUALITY
    else []
  }

  /** The side file of the new phase. */
  function Moved(d: Disk, next: Phase, lease: Lease, nonce: nat): Side {
    var s, src := d.side, d.side.phase;
    var s1 := if next == Implement
      then s.(expected := Some(lease), binder := None, entryFingerprint := Some(d.workspace.fingerprint)) else s;
    var s2 := if next != Ralplan then s1
      else if Epoch(d) == 0 then s1.(epoch := Some(1))
      else s1.(epoch := Some(Epoch(d) + 1), ralplanCycles := s1.ralplanCycles + 1);
    var s3 := if next == Rework then s2.(reviewCycles := s2.reviewCycles + 1) else s2;
    var s4 := if src == Qa && next == Ralplan then s3.(qaCycles := s3.qaCycles + 1) else s3;
    s4.(phase := next, authorityPhase := next, nonce := nonce, history := s4.history + [next],
        blockedFrom := if next == Blocked then Some(src) else None)
  }

  /** The writes of an allowed transition. */
  function TransitionWrites(d: Disk, next: Phase, lease: Lease, nonce: nat): seq<Write> {
    Invalidations(d, next) + [SavePhase(Moved(d, next, lease, nonce)), SaveStatus(nonce, next)]
  }

  // ---------- the other holders of the lease ----------

  /** `stamp_implementation_receipt` of the present workspace. */
  predicate ReceiptAllowed(d: Disk) {
    !d.status.terminal && !d.status.cancelPending && d.side.phase == Implement
  }

  function ReceiptWrites(d: Disk, lease: Lease): seq<Write> {
    var receipt := Receipt(lease, d.workspace.fingerprint);
    [SaveReceipt(receipt), SaveBinder(d.side.(expected := Some(lease), binder := Some(receipt)))]
  }

  /** `assert_autopilot_accept_authority` */
  predicate Authority(d: Disk) {
    && d.side.phase == Acceptance && d.side.authorityPhase == Acceptance && d.status.authorityPhase == Acceptance
    && d.side.nonce == d.status.nonce
  }

  /** `complete_with_acceptance`, up to the acceptance run itself. */
  predicate CompletionAllowed(d: Disk) {
    if d.side.phase == Acceptance then Authority(d)
        && (d.status.verified || (!d.status.terminal && !d.status.cancelPending))
    else false
  }

  function CompletionWrites(d: Disk, nonce: nat): seq<Write> {
    var side := d.side.(phase := Verified, authorityPhase := Verified, nonce := nonce,
                        history := d.side.history + [Verified]);
    (if d.status.verified then [] else [VerifyStatus]) + [SavePhase(side), SaveStatus(nonce, Verified)]
  }

  // ---------- runs ----------

  /** The disk, and what the holder of the execution lease has still to write. */
  datatype State = State(disk: Disk, pending: Option<seq<Write>>)

  datatype Event =
    | Begin(next: Phase, evidence: Evidence, lease: Lease, nonce: nat)
    | BeginReceipt(lease: Lease)
    | BeginCompletion(nonce: nat)
    | Durable(write: Write)
    | Crash
    | ReviewWritten(review: ReviewStamp)
    | QaWritten(qa: QaStamp)
    | ConsensusWritten(consensus: Consensus)
    | InterviewWritten(done: bool)
    | Edited(workspace: Workspace)
    | CancelRequested
    | Ended

  predicate FreshNonce(d: Disk, nonce: nat) { nonce != d.side.nonce && nonce != d.status.nonce }

  /** One event; None where it cannot happen.  The stamp writers take no lease. */
  function Step(s: State, e: Event): Option<State> {
    var d := s.disk;
    match e
    case Begin(next, ev, lease, nonce) =>
      if s.pending.None? && FreshNonce(d, nonce) && Allowed(d, next, ev)
      then Some(s.(pending := Some(TransitionWrites(d, next, lease, nonce)))) else None
    case BeginReceipt(lease) =>
      if s.pending.None? && ReceiptAllowed(d) then Some(s.(pending := Some(ReceiptWrites(d, lease)))) else None
    case BeginCompletion(nonce) =>
      if s.pending.None? && FreshNonce(d, nonce) && CompletionAllowed(d)
      then Some(s.(pending := Some(CompletionWrites(d, nonce)))) else None
    case Durable(write) =>
      if s.pending.Some? && |s.pending.value| > 0 && s.pending.value[0] == write
      then
        var rest := s.pending.value[1..];
        Some(State(Apply(d, write), if |rest| == 0 then None else Some(rest)))
      else None
    case Crash => if s.pending.Some? then Some(s.(pending := None)) else None
    case ReviewWritten(review) => Some(s.(disk := d.(review := Some(review))))
    case QaWritten(qa) => Some(s.(disk := d.(qa := Some(qa))))
    case ConsensusWritten(consensus) => Some(s.(disk := d.(consensus := Some(consensus))))
    case InterviewWritten(done) => Some(s.(disk := d.(interviewDone := done)))
    case Edited(workspace) => Some(s.(disk := d.(workspace := workspace)))
    case CancelRequested => Some(s.(disk := d.(status := d.status.(cancelPending := true))))
    case Ended => if s.pending.None? then Some(s.(disk := d.(status := d.status.(terminal := true)))) else None
  }

  /** `start_autopilot` */
  function Started(skipInterview: bool, nonce: nat, workspace: Workspace): State {
    var phase := if skipInterview then Ralplan else Interview;
    State(
      Disk(Side(phase, phase, nonce, Some(if skipInterview then 1 else 0), 0, 0, 0, [phase], None, None, None, None),
           Status(false, false, false, nonce, phase), None, None, None, None, false, workspace),
      None)
  }

  function StateAt(start: State, events: seq<Event>, n: nat): Option<State>
    requires n <= |events|
  {
    if n == 0 then Some(start)
    else
      match StateAt(start, events, n - 1)
      case None => None
      case Some(s) => Step(s, events[n - 1])
  }
}
