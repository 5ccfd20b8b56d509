/** Goals in particular: names and stories as they are stored, the scan's refusals, loading, replay and repair. */
module GoalDetails {
  import opened Text
  import opened Options
  import opened StoryGraph
  import opened GoalLedger
  import opened GoalModel
  import opened GoalReplay
  import opened GoalRuns

  // ---------- names and stories ----------

  /** A letter or a digit of ASCII, by its code. */
  predicate AsciiWord(c: char) {
    || (48 <= c as int && c as int <= 57) || (65 <= c as int && c as int <= 90)
    || (97 <= c as int && c as int <= 122)
  }

  /** An identifier: 1 to 128 letters, digits, dots, underscores and dashes, a letter or a digit in front. */
  lemma IdentifierExactly(s: string)
    ensures Identifier(s) <==>
      0 < |s| < 129 && AsciiWord(s[0]) && forall c :: c in s ==> AsciiWord(c) || c in {'.', '_', '-'}
  {
    assert forall c :: c in "._-" <==> c in {'.', '_', '-'};
    if forall c :: c in s ==> AsciiWord(c) || c in {'.', '_', '-'} {
      forall i | 0 <= i < |s| ensures IdentifierHead(s[i]) || s[i] in "._-" { assert s[i] in s; }
    }
  }

  /** A story as it is stored: trimmed, untitled ones named by their id, ready when it depends on nothing. */
  lemma StoredExactly(raw: RawStory)
    ensures var s := Stored(raw);
      && s.id == Strip(raw.id) && s.acceptance == Strip(raw.acceptance)
      && s.title == Strip(if raw.title in {None, Some("")} then Strip(raw.id) else raw.title.value)
      && |s.dependsOn| == |raw.dependsOn|
      && (forall i :: 0 <= i < |s.dependsOn| ==> s.dependsOn[i] == Strip(raw.dependsOn[i]))
      && s.status == (if |raw.dependsOn| == 0 then Ready else Pending)
      && s.blockReason == None && s.nextAction == None && s.evidence == [] && s.checkpoints == 0
  {
    hide Strip;
  }

  /** A new goal: its one event, and the snapshot of it, named by its id where no title is given. */
  lemma InitExactly(h: Hash, goalId: string, stories: seq<Story>, title: string, objective: string,
                    spec: Option<string>, plan: Option<string>, ts: string, invocation: string)
    ensures var s := Init(h, goalId, stories, title, objective, spec, plan, ts, invocation);
      var sn := s.snapshot;
      && |s.file.lines| == 1 && s.file.lines[0].EventLine? && s.file.terminated && s.backups == []
      && var e := s.file.lines[0].event;
         && e.body == Body(1, GENESIS, goalId, ts, invocation,
                           GoalCreated(Strip(if title == "" then goalId else title), Strip(objective), spec, plan,
                                       stories))
         && e.hash == h(GENESIS, e.body)
         && sn.goalId == goalId && sn.title == Strip(if title == "" then goalId else title)
         && sn.objective == Strip(objective) && sn.specHash == spec && sn.planHash == plan
         && sn.stories == ById(stories)
         && sn.status == Active && !sn.verified && sn.linkedRuns == [] && sn.blocker == NoBlocker
         && sn.tailSequence == 1 && sn.tailHash == e.hash && sn.revision == 1
         && sn.createdAt == ts && sn.updatedAt == ts && sn.createdBy == Some(invocation)
         && sn.verifiedRun == None && sn.verifiedAt == None
  {
    hide Strip, ById;
  }

  // ---------- the ledger ----------

  lemma GenesisExactly()
    ensures |GENESIS| == 64 && forall c :: c in GENESIS ==> c == '0'
  {
    assert forall c :: c in SIXTEEN_ZEROS ==> c == '0';
  }

  /** Why the scan gives up at a line behind a chain, and that nothing behind that line matters. */
  lemma ScanStopsAt(h: Hash, events: seq<Event>, line: Line, rest: seq<Line>)
    requires Chain(h, events)
    ensures var r := ScanLedger(h, Lines(events) + [line] + rest);
      match line
      case Blank => r == if rest == [] then Damaged(events, Blank) else Refused(MidBlank)
      case NotJson => r == if rest == [] then Damaged(events, NotJson) else Refused(MidInvalidJson)
      case NonObject => r == Refused(NotAnObject)
      case Foreign => r == Refused(SequenceGap)
      case EventLine(e) =>
        && (e.body.sequence != |events| + 1 ==> r == Refused(SequenceGap))
        && (e.body.sequence == |events| + 1 && e.body.prevHash != TailHash(events) ==> r == Refused(PrevHashMismatch))
        && (e.body.sequence == |events| + 1 && e.body.prevHash == TailHash(events)
            && e.hash != h(TailHash(events), e.body)
            ==> r == Refused(EventHashMismatch))
  {
    hide ScanLoop;
    assert events[..0] == [];
    assert Lines(events) + [line] + rest == Lines(events) + ([line] + rest);
    ScanThrough(h, events, [line] + rest, 0);
    ScanTurn(h, Lines(events) + [line] + rest, |events|, TailHash(events), |events| + 1, events);
    assert (Lines(events) + [line] + rest)[|events|] == line;
  }

  lemma ScanTurn(h: Hash, lines: seq<Line>, idx: nat, prev: string, expected: nat, events: seq<Event>)
    requires idx < |lines|
    ensures var r := ScanLoop(h, lines, idx, prev, expected, events);
      match lines[idx]
      case Blank => r == if idx == |lines| - 1 then Damaged(events, Blank) else Refused(MidBlank)
      case NotJson => r == if idx == |lines| - 1 then Damaged(events, NotJson) else Refused(MidInvalidJson)
      case NonObject => r == Refused(NotAnObject)
      case Foreign => r == Refused(SequenceGap)
      case EventLine(e) =>
        && (e.body.sequence != expected ==> r == Refused(SequenceGap))
        && (e.body.sequence == expected && e.body.prevHash != prev ==> r == Refused(PrevHashMismatch))
        && (e.body.sequence == expected && e.body.prevHash == prev && e.hash != h(prev, e.body) ==>
              r == Refused(EventHashMismatch))
  {}

  /** A goal loads exactly when its ledger is a chain and the snapshot carries the last sequence number and hash. */
  lemma LoadsExactly(h: Hash, s: State, events: seq<Event>)
    ensures Load(h, s) == Some(events) <==>
      && Chain(h, events) && s.file.lines == Lines(events)
      && s.snapshot.tailSequence == |events| && s.snapshot.tailHash == TailHash(events)
  {
    hide ScanLedger;
    ScanExactly(h, s.file.lines, events);
    if Chain(h, events) && |events| > 0 { assert Linked(h, events, |events| - 1); }
  }

  /** The next event: one number on, hashed over the last hash. */
  lemma NextExactly(h: Hash, events: seq<Event>, goalId: string, ts: string, invocation: string, p: Payload)
    requires Chain(h, events)
    ensures NextEvent(h, events, goalId, ts, invocation, p).body
         == Body(|events| + 1, if events == [] then GENESIS else events[|events| - 1].hash, goalId, ts, invocation, p)
    ensures NextEvent(h, events, goalId, ts, invocation, p).hash
         == h(TailHash(events), NextEvent(h, events, goalId, ts, invocation, p).body)
  {
    if |events| > 0 { assert Linked(h, events, |events| - 1); }
  }

  /** An event is a line of its own, unless the last line has no newline: then that line takes it in. */
  lemma AppendExactly(f: File, e: Event)
    ensures AppendLine(f, e).terminated
    ensures f.terminated || f.lines == [] ==> AppendLine(f, e).lines == f.lines + [EventLine(e)]
    ensures !f.terminated && f.lines != [] ==>
      && |AppendLine(f, e).lines| == |f.lines|
      && AppendLine(f, e).lines[..|f.lines| - 1] == f.lines[..|f.lines| - 1]
      && AppendLine(f, e).lines[|f.lines| - 1] == if f.lines[|f.lines| - 1] == Blank then EventLine(e) else NotJson
  {}

  // ---------- replay ----------

  /** Replay raises exactly on an event of a story that is not there, and on a resume without a blocker. */
  lemma ReplayRaisesExactly(sn: Snapshot, p: Payload, ts: string)
    ensures ReplayPayload(sn, p, ts) == None <==>
      || (p.StoryStarted? && p.id !in sn.stories) || (p.Checkpointed? && p.id !in sn.stories)
      || (p.StoryBlocked? && p.id !in sn.stories) || (p.StoryCompleted? && p.id !in sn.stories)
      || (p.StoryResumed? && (p.id !in sn.stories || sn.blocker == NoBlocker))
  {
    hide Refresh, AllComplete;
  }

  /** A linked run is taken in once, and an empty one never; events that are none of a goal's change nothing. */
  lemma ReplayLinksExactly(sn: Snapshot, p: Payload, ts: string)
    ensures p.RunLinked? ==>
      ReplayPayload(sn, p, ts) == Some(sn.(linkedRuns := if p.run == "" || p.run in sn.linkedRuns then sn.linkedRuns
                                                         else sn.linkedRuns + [p.run]))
    ensures p.GoalCreated? || p.ProposalImported? || p.LedgerRepaired? || p.OtherEvent? ==>
      ReplayPayload(sn, p, ts) == Some(sn)
  {}

  /** An imported proposal is recorded and changes nothing else. */
  lemma ImportExactly(sn: Snapshot, path: string, sha: string, note: string, ts: string)
    ensures Live(sn, ImportProposal(path, sha, note), ts) == Commit(ProposalImported(path, sha, note), sn)
  {}

  /** On an empty ledger only a run can be linked. */
  lemma OnEmptyLedger(h: Hash, s: State, op: Op, ts: string, invocation: string)
    requires Load(h, s) == Some([])
    ensures DoOp(h, s, op, ts, invocation) != s <==>
      op.LinkRun? && Identifier(op.run) && op.run !in s.snapshot.linkedRuns
    ensures DoOp(h, s, op, ts, invocation) != s ==>
      DoOp(h, s, op, ts, invocation).snapshot.linkedRuns == s.snapshot.linkedRuns + [op.run]
  {
    hide ScanLedger, Identifier, Strip, Refresh, AllComplete, AppendLine;
  }

  // ---------- repair ----------

  /** What each outcome of a repair comes of, and leaves. */
  lemma RepairExactly(h: Hash, s: State, confirmed: bool, ts: string, invocation: string)
    ensures var (t, action) := RepairGoal(h, s, confirmed, ts, invocation);
      var scan := ScanLedger(h, s.file.lines);
      && (action == AlreadyHealthy <==> Load(h, s).Some?)
      && (action == DryRun <==> Load(h, s).None? && !confirmed)
      && (action == MarkedForensic <==> Load(h, s).None? && confirmed && !scan.Damaged?)
      && (action in {AlreadyHealthy, DryRun} ==> t == s)
      && (action == MarkedForensic ==>
            && t.file == s.file && t.backups == s.backups && t.snapshot.status == ForensicGoal
            && t.snapshot.blocker == ForensicBlocker && t.snapshot.updatedAt == ts
            && t.snapshot == s.snapshot.(status := ForensicGoal, blocker := ForensicBlocker, updatedAt := ts))
      && (action in {Repaired, RebuildRaised} ==> scan.Damaged? && t.backups == s.backups + [s.file])
      && (action == RebuildRaised ==> t.file == s.file && t.snapshot == s.snapshot)
      && (action == Repaired && scan.prefix == [] ==>
            && t.snapshot.stories == map[] && t.snapshot.title == s.snapshot.goalId
            && t.snapshot.goalId == s.snapshot.goalId && t.snapshot.objective == "" && t.snapshot.status == Active
            && t.snapshot.linkedRuns == [] && !t.snapshot.verified && t.snapshot.createdAt == ts)
  {
    hide ScanLedger, Rebuild, NextEvent, WrittenBack;
  }
}
