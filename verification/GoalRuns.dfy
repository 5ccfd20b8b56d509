/**
 Runs of a goal: operations, crashes between the two durable writes, damage to the last line, and
 repair, as steps over the ledger file and the snapshot file.
 */
module GoalRuns {
  import opened Text
  import opened Options
  import opened StoryGraph
  import opened GoalLedger
  import opened GoalModel
  import opened GoalReplay

  datatype State = State(file: File, snapshot: Snapshot, backups: seq<File>)

  // ---------- loading and appending ----------

  /** `_assert_snapshot_matches_ledger` */
  predicate MatchesTail(sn: Snapshot, events: seq<Event>) {
    if |events| == 0 then sn.tailSequence == 0 && sn.tailHash == GENESIS
    else
      var last := events[|events| - 1];
      sn.tailSequence == last.body.sequence && sn.tailHash == last.hash
  }

  /** `_load_consistent`: the events of a goal that may be changed. */
  function Load(h: Hash, s: State): Option<seq<Event>> {
    var scan := ScanLedger(h, s.file.lines);
    if scan.Valid? && MatchesTail(s.snapshot, scan.events) then Some(scan.events) else None
  }

  function NextEvent(h: Hash, events: seq<Event>, goalId: string, ts: string, invocation: string, p: Payload): Event {
    var sequence := if |events| == 0 then 1 else events[|events| - 1].body.sequence + 1;
    var body := Body(sequence, TailHash(events), goalId, ts, invocation, p);
    Event(body, h(TailHash(events), body))
  }

  /** An operation that ran to its end; refused operations change nothing. */
  function DoOp(h: Hash, s: State, op: Op, ts: string, invocation: string): State {
    match Load(h, s)
    case None => s
    case Some(events) =>
      if |events| == 0 && !op.LinkRun? then s
      else
        match Live(s.snapshot, op, ts)
        case Commit(p, sn) =>
          var e := NextEvent(h, events, sn.goalId, ts, invocation, p);
          s.(file := AppendLine(s.file, e), snapshot := Saved(sn, e))
        case _ => s
  }

  // ---------- repair ----------

  datatype Action = AlreadyHealthy | DryRun | MarkedForensic | RebuildRaised | Repaired

  /** The rebuilt stories share their evidence lists with the first event, so it sees every append. */
  function AliasStories(list: seq<Story>, stories: Stories): (r: seq<Story>)
    ensures |r| == |list|
    ensures forall i :: 0 <= i < |r| ==>
      r[i] == if list[i].id in stories then list[i].(evidence := stories[list[i].id].evidence) else list[i]
  {
    seq(|list|, i requires 0 <= i < |list| =>
      if list[i].id in stories then list[i].(evidence := stories[list[i].id].evidence) else list[i])
  }

  function AliasFirst(e: Event, stories: Stories): Event
    requires e.body.payload.GoalCreated?
  {
    var p := e.body.payload;
    e.(body := e.body.(payload := p.(stories := AliasStories(p.stories, stories))))
  }

  /** The valid prefix as it is written back after the rebuild. */
  function WrittenBack(prefix: seq<Event>, rebuilt: Snapshot): seq<Event>
    requires |prefix| > 0 && prefix[0].body.payload.GoalCreated?
  {
    [AliasFirst(prefix[0], rebuilt.stories)] + prefix[1..]
  }

  /** `repair_goal` */
  function RepairGoal(h: Hash, s: State, confirmed: bool, ts: string, invocation: string): (State, Action) {
    var scan := ScanLedger(h, s.file.lines);
    if scan.Valid? && MatchesTail(s.snapshot, scan.events) then (s, AlreadyHealthy)
    else if !confirmed then (s, DryRun)
    else if !scan.Damaged? then
      (s.(snapshot := s.snapshot.(status := ForensicGoal, blocker := ForensicBlocker, updatedAt := ts)), MarkedForensic)
    else
      var goalId := s.snapshot.goalId;
      var saved := s.(backups := s.backups + [s.file]);
      var p := LedgerRepaired("", |scan.prefix|, TailHash(scan.prefix));
      var e := NextEvent(h, scan.prefix, goalId, ts, invocation, p);
      if |scan.prefix| == 0 then
        (saved.(file := File([EventLine(e)], true), snapshot := Saved(Emptied(goalId, ts), e)), Repaired)
      else
        match Rebuild(goalId, scan.prefix)
        case None => (saved, RebuildRaised)
        case Some(sn) =>
          RebuildFirst(goalId, scan.prefix);
          (saved.(file := File(Lines(WrittenBack(scan.prefix, sn) + [e]), true), snapshot := Saved(sn, e)), Repaired)
  }

  lemma {:induction false} RebuildFirst(goalId: string, events: seq<Event>)
    requires |events| > 0 && Rebuild(goalId, events).Some?
    ensures events[0].body.payload.GoalCreated?
    decreases |events|
  {
    if |events| > 1 { RebuildFirst(goalId, events[..|events| - 1]); }
  }

  // ---------- steps ----------

  datatype Step =
    | Do(op: Op, ts: string, invocation: string)
    | CrashAfterAppend(op: Op, ts: string, invocation: string, newline: bool)
    | TornAppend(t: Line)
    | DamageLast(t: Line, newline: bool)
    | DropNewline
    | Repair(confirmed: bool, ts: string, invocation: string)

  /** A torn or damaged last line is anything the scan does not take for the next event. */
  predicate Enabled(h: Hash, s: State, step: Step) {
    match step
    case TornAppend(t) => Load(h, s).Some? && s.file.terminated && !ScanLedger(h, s.file.lines + [t]).Valid?
    case DamageLast(t, newline) =>
      |s.file.lines| > 0 && !ScanLedger(h, s.file.lines[..|s.file.lines| - 1] + [t]).Valid?
    case _ => true
  }

  function Next(h: Hash, s: State, step: Step): State
    requires Enabled(h, s, step)
  {
    match step
    case Do(op, ts, invocation) => DoOp(h, s, op, ts, invocation)
    case CrashAfterAppend(op, ts, invocation, newline) =>
      // the ledger line is durable, the snapshot is not
      var after := DoOp(h, s, op, ts, invocation);
      s.(file := if after == s then s.file else after.file.(terminated := newline))
    case TornAppend(t) => s.(file := File(s.file.lines + [t], false))
    case DamageLast(t, newline) => s.(file := File(s.file.lines[..|s.file.lines| - 1] + [t], newline))
    case DropNewline => s.(file := s.file.(terminated := false))
    case Repair(confirmed, ts, invocation) => RepairGoal(h, s, confirmed, ts, invocation).0
  }

  /** `init_goal` with a list the validation accepts. */
  function Init(h: Hash, goalId: string, stories: seq<Story>, title: string, objective: string,
                specHash: Option<string>, planHash: Option<string>, ts: string, invocation: string): State {
    var p := GoalCreated(Strip(if title == "" then goalId else title), Strip(objective), specHash, planHash, stories);
    var e := NextEvent(h, [], goalId, ts, invocation, p);
    var sn := Snapshot(goalId, p.title, p.objective, Active, false, ById(stories), [], specHash, planHash,
                       0, GENESIS, 0, ts, ts, NoBlocker, Some(invocation), None, None);
    State(File([EventLine(e)], true), Saved(sn, e), [])
  }

  ghost predicate IsInit(h: Hash, goalId: string, s: State) {
    exists raws, title, objective, spec, plan, ts, invocation ::
      ValidStories(raws) && s == Init(h, goalId, StoredAll(raws), title, objective, spec, plan, ts, invocation)
  }

  predicate StepOk(h: Hash, s: State, step: Step, t: State) {
    Enabled(h, s, step) && t == Next(h, s, step)
  }

  /** A run: the states a goal goes through from its creation on. */
  ghost predicate Run(h: Hash, goalId: string, states: seq<State>, steps: seq<Step>) {
    && |states| == |steps| + 1 && IsInit(h, goalId, states[0])
    && forall i :: 0 <= i < |steps| ==> StepOk(h, states[i], steps[i], states[i + 1])
  }

  // ---------- legal histories ----------

  ghost predicate FromRaws(e: Event, raws: seq<RawStory>) {
    e.body.payload.GoalCreated? && ValidStories(raws) && e.body.payload.stories == StoredAll(raws)
  }

  /** An event some operation could have appended to a goal with this rebuilt snapshot. */
  ghost predicate LegalNext(rebuilt: Snapshot, e: Event) {
    || e.body.payload.LedgerRepaired?
    || exists live, op :: GoalInv(live) && Agrees(live, rebuilt)
         && Live(live, op, e.body.ts).Commit? && Live(live, op, e.body.ts).payload == e.body.payload
  }

  ghost predicate LegalAt(goalId: string, events: seq<Event>, k: nat)
    requires 0 < k < |events|
  {
    Rebuild(goalId, events[..k]).Some? && LegalNext(Rebuild(goalId, events[..k]).value, events[k])
  }

  ghost predicate Legal(goalId: string, events: seq<Event>) {
    && |events| > 0 && (exists raws :: FromRaws(events[0], raws))
    && forall k :: 0 < k < |events| ==> LegalAt(goalId, events, k)
  }

  lemma LegalPrefix(goalId: string, events: seq<Event>, n: nat)
    requires Legal(goalId, events) && 0 < n <= |events|
    ensures Legal(goalId, events[..n])
  {
    hide LegalNext, FromRaws;
    assert events[..n][0] == events[0];
    forall k | 0 < k < n ensures LegalAt(goalId, events[..n], k) {
      assert LegalAt(goalId, events, k);
      assert events[..n][..k] == events[..k];
    }
  }

  /** One legal event more: the rebuild goes on and stays in the invariant. */
  lemma LegalStep(rebuilt: Snapshot, e: Event)
    requires GoalInv(rebuilt) && LegalNext(rebuilt, e)
    ensures Replay(rebuilt, e).Some? && GoalInv(Replay(rebuilt, e).value)
  {
    hide GoalInv, Live, ReplayPayload, Agrees;
    if e.body.payload.LedgerRepaired? {
      RepairedReplay(rebuilt, e);
    } else {
      var live, op :| GoalInv(live) && Agrees(live, rebuilt)
        && Live(live, op, e.body.ts).Commit? && Live(live, op, e.body.ts).payload == e.body.payload;
      LiveKeepsInv(live, op, e.body.ts);
      ReplayKeepsUp(live, rebuilt, op, e.body.ts);
      var sn := ReplayPayload(rebuilt, e.body.payload, e.body.ts).value;
      AgreesKeepsInv(Live(live, op, e.body.ts).snapshot, sn);
      TailKeepsInv(sn, e);
    }
  }

  lemma LegalFirst(goalId: string, events: seq<Event>)
    requires Legal(goalId, events)
    ensures events[0].body.payload.GoalCreated? && GoalInv(Created(goalId, events[0]))
  {
    hide GoalInv, Created, ValidStories, LegalAt, StoredAll;
    var raws :| FromRaws(events[0], raws);
    CreatedInv(goalId, events[0], raws);
  }

  /** A legal history rebuilds without raising, into the invariant. */
  lemma {:induction false} LegalRebuilds(goalId: string, events: seq<Event>)
    requires Legal(goalId, events)
    ensures Rebuild(goalId, events).Some? && GoalInv(Rebuild(goalId, events).value)
    decreases |events|
  {
    hide GoalInv, LegalNext, Replay, Created, FromRaws;
    var n := |events| - 1;
    LegalFirst(goalId, events);
    if n > 0 {
      LegalPrefix(goalId, events, n);
      LegalRebuilds(goalId, events[..n]);
      assert LegalAt(goalId, events, n);
      LegalStep(Rebuild(goalId, events[..n]).value, events[n]);
    }
  }

  lemma RepairedReplay(rebuilt: Snapshot, e: Event)
    requires e.body.payload.LedgerRepaired?
    ensures Replay(rebuilt, e)
      == Some(rebuilt.(tailSequence := e.body.sequence, tailHash := e.hash, updatedAt := e.body.ts))
    ensures GoalInv(rebuilt) ==> GoalInv(Replay(rebuilt, e).value)
  {
    hide StoriesInv, Acyclic;
  }

  lemma TailKeepsInv(sn: Snapshot, e: Event)
    requires GoalInv(sn)
    ensures GoalInv(sn.(tailSequence := e.body.sequence, tailHash := e.hash, updatedAt := e.body.ts))
    ensures GoalInv(Saved(sn, e))
  {
    hide StoriesInv, Acyclic;
  }

  lemma LegalExtends(goalId: string, events: seq<Event>, e: Event)
    requires Legal(goalId, events) && Rebuild(goalId, events).Some? && LegalNext(Rebuild(goalId, events).value, e)
    ensures Legal(goalId, events + [e])
    ensures Rebuild(goalId, events + [e]) == Replay(Rebuild(goalId, events).value, e)
  {
    hide LegalNext, FromRaws, Replay;
    var all := events + [e];
    assert all[0] == events[0];
    assert all[..|events|] == events;
    forall k | 0 < k < |all| ensures LegalAt(goalId, all, k) {
      if k < |events| {
        assert LegalAt(goalId, events, k);
        assert all[..k] == events[..k];
      }
    }
  }

  // ---------- the invariant of all reachable states ----------

  /** A goal of which a repair found nothing left. */
  predicate Orphan(events: seq<Event>) { |events| > 0 && events[0].body.payload.LedgerRepaired? }

  predicate OrphanSnapshot(sn: Snapshot) {
    sn.stories == map[] && sn.status == Active && !sn.verified && sn.blocker == NoBlocker
  }

  /** The lines are a chain, perhaps followed by one line that does not continue it. */
  predicate Tail(h: Hash, lines: seq<Line>, events: seq<Event>) {
    && Chain(h, events)
    && (lines == Lines(events)
        || (|lines| == |events| + 1 && lines[..|events|] == Lines(events) && !ScanLedger(h, lines).Valid?))
  }

  /** The first line no longer matches its hash: the scan refuses the file for good. */
  predicate Broken(h: Hash, lines: seq<Line>) {
    |lines| >= 2 && lines[0].EventLine? && !Linked(h, [lines[0].event], 0)
  }

  ghost predicate Tracks(h: Hash, goalId: string, s: State, events: seq<Event>) {
    && Tail(h, s.file.lines, events)
    && (|events| == 0 ==> |s.file.lines| == 1)
    && (|events| > 0 ==> Legal(goalId, events) || Orphan(events))
    && (Load(h, s).Some? && Legal(goalId, events) ==>
          Rebuild(goalId, events).Some? && Agrees(s.snapshot, Rebuild(goalId, events).value) && GoalInv(s.snapshot))
    && (Load(h, s).Some? && Orphan(events) ==> OrphanSnapshot(s.snapshot))
  }

  ghost predicate StateInv(h: Hash, goalId: string, s: State) {
    && s.snapshot.goalId == goalId
    && (Broken(h, s.file.lines) || exists events :: Tracks(h, goalId, s, events))
  }

  lemma LoadIs(h: Hash, s: State, events: seq<Event>)
    requires Tail(h, s.file.lines, events)
    ensures Load(h, s).Some? ==> Load(h, s) == Some(events) && s.file.lines == Lines(events)
    ensures s.file.lines == Lines(events) ==> ScanLedger(h, s.file.lines) == Valid(events)
    ensures s.file.lines != Lines(events) ==> !ScanLedger(h, s.file.lines).Valid?
  {
    hide ScanLedger;
    ScanExactly(h, s.file.lines, events);
  }

  lemma BrokenScan(h: Hash, lines: seq<Line>)
    requires Broken(h, lines)
    ensures ScanLedger(h, lines).Refused?
  {
    assert [lines[0].event][..0] == [];
  }

  lemma LinesAppend(events: seq<Event>, e: Event)
    ensures Lines(events + [e]) == Lines(events) + [EventLine(e)]
  {}

  lemma NextEventLinks(h: Hash, events: seq<Event>, goalId: string, ts: string, invocation: string, p: Payload)
    requires Chain(h, events)
    ensures Chain(h, events + [NextEvent(h, events, goalId, ts, invocation, p)])
  {
    var e := NextEvent(h, events, goalId, ts, invocation, p);
    ChainAppend(h, events, e);
    assert (events + [e])[..|events|] == events;
    if |events| > 0 { assert Linked(h, events, |events| - 1); }
  }

  /** An event appended to a line without newline leaves a line that is no event. */
  lemma MergedTail(h: Hash, events: seq<Event>, lines: seq<Line>)
    requires Chain(h, events) && |events| > 0 && |lines| == |events|
    requires lines[..|events| - 1] == Lines(events[..|events| - 1]) && lines[|events| - 1] == NotJson
    ensures Tail(h, lines, events[..|events| - 1])
  {
    hide ScanLedger;
    var n := |events| - 1;
    ChainPrefix(h, events, n);
    assert lines == Lines(events[..n]) + [NotJson];
    ScanExactly(h, lines, events[..n]);
  }

  /**
   Appending the next event to a goal that loads: with a newline before it the goal loads again with
   one event more, and without one it no longer loads.
   */
  lemma AppendLoads(h: Hash, s: State, events: seq<Event>, sn: Snapshot, e: Event)
    requires Load(h, s) == Some(events) && Chain(h, events + [e])
    ensures Load(h, s.(file := AppendLine(s.file, e), snapshot := Saved(sn, e)))
         == if s.file.terminated || |events| == 0 then Some(events + [e]) else None
  {
    hide ScanLedger, Chain;
    ScanExactly(h, s.file.lines, events);
    LinesAppend(events, e);
    var t := s.(file := AppendLine(s.file, e), snapshot := Saved(sn, e));
    var n := |events|;
    if s.file.terminated || n == 0 {
      ScanExactly(h, t.file.lines, events + [e]);
    } else {
      assert Chain(h, events) by { ScanExactly(h, s.file.lines, events); }
      assert Chain(h, events[..n - 1]) by { ChainPrefix(h, events, n - 1); }
      assert t.file.lines == Lines(events[..n - 1]) + [NotJson];
      ScanExactly(h, t.file.lines, events[..n - 1]);
    }
  }
}
