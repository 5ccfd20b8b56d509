/**
 Goal snapshots of omg_cli/goals.py: what each operation does to the live snapshot, what replaying
 its event does to a rebuilt one, and the invariant that makes the two agree.
 Story and run ids are the validated ones; file digests and clock readings are inputs.
 */
module GoalModel {
  import opened Text
  import opened Options
  import opened StoryGraph
  import opened GoalLedger

  datatype GoalStatus = Active | BlockedGoal | CompleteGoal | VerifiedGoal | ForensicGoal

  datatype Blocker =
    | NoBlocker
    | StoryBlocker(id: string, reason: string, nextAction: Option<string>)
    | ForensicBlocker

  type Stories = map<string, Story>

  datatype Snapshot = Snapshot(
    goalId: string, title: string, objective: string, status: GoalStatus, verified: bool,
    stories: Stories, linkedRuns: seq<string>, specHash: Option<string>, planHash: Option<string>,
    tailSequence: nat, tailHash: string, revision: nat, createdAt: string, updatedAt: string,
    blocker: Blocker, createdBy: Option<string>, verifiedRun: Option<string>, verifiedAt: Option<string>)

  // ---------- readiness ----------

  predicate IsComplete(stories: Stories, id: string) {
    id in stories && stories[id].status == Complete
  }

  predicate DepsDone(stories: Stories, s: Story) {
    forall i :: 0 <= i < |s.dependsOn| ==> IsComplete(stories, s.dependsOn[i])
  }

  predicate AllComplete(stories: Stories) {
    forall id :: id in stories ==> stories[id].status == Complete
  }

  function RefreshOne(stories: Stories, s: Story): Story {
    if s.status != Pending && s.status != Ready then s
    else if DepsDone(stories, s) then s.(status := Ready)
    else s.(status := Pending)
  }

  function Refresh(stories: Stories): (r: Stories)
    ensures r.Keys == stories.Keys
  {
    map id | id in stories :: RefreshOne(stories, stories[id])
  }

  // ---------- operations on the live snapshot ----------

  datatype Op =
    | LinkRun(run: string)
    | StartStory(id: string)
    | Checkpoint(id: string, path: string, sha: string, message: string, at: string)
    | BlockStory(id: string, reason: string, nextAction: string)
    | ResumeStory(id: string)
    | CompleteStory(id: string)
    | ImportProposal(path: string, sha: string, note: string)
    | VerifyGoal(run: string)

  /** Refused with nothing written, accepted with nothing to write, or an event and a new snapshot. */
  datatype Outcome = Refuse | NothingToDo | Commit(payload: Payload, snapshot: Snapshot)

  function OrNone(s: string): Option<string> { if s == "" then None else Some(s) }

  /** The body of each operation between loading the goal and appending the event. */
  function Live(sn: Snapshot, op: Op, ts: string): Outcome {
    match op
    case LinkRun(run) =>
      if !Identifier(run) then Refuse
      else if run in sn.linkedRuns then NothingToDo
      else Commit(RunLinked(run), sn.(linkedRuns := sn.linkedRuns + [run]))
    case StartStory(id) =>
      var stories := Refresh(sn.stories);
      if sn.status == ForensicGoal || id !in stories || stories[id].status != Ready then Refuse
      else Commit(StoryStarted(id),
                  sn.(stories := stories[id := stories[id].(status := InProgress, blockReason := None)]))
    case Checkpoint(id, path, sha, message, at) =>
      if Strip(message) == "" || id !in sn.stories || sn.stories[id].status != InProgress then Refuse
      else
        var s := sn.stories[id];
        Commit(Checkpointed(id, Strip(message), path, sha),
               sn.(stories := sn.stories[id := s.(checkpoints := s.checkpoints + 1,
                                                  evidence := s.evidence + [Evidence(path, sha, Strip(message), at)])]))
    case BlockStory(id, reason, next) =>
      if Strip(reason) == "" || id !in sn.stories || sn.stories[id].status !in {InProgress, Ready} then Refuse
      else
        var s := sn.stories[id].(status := Blocked, blockReason := Some(Strip(reason)),
                                 nextAction := OrNone(Strip(next)));
        Commit(StoryBlocked(id, Strip(reason), s.nextAction),
               sn.(stories := sn.stories[id := s], status := BlockedGoal,
                   blocker := StoryBlocker(id, Strip(reason), s.nextAction)))
    case ResumeStory(id) =>
      // with no blocker recorded the look into it raises
      if id !in sn.stories || sn.stories[id].status != Blocked || sn.blocker == NoBlocker then Refuse
      else
        var s := sn.stories[id].(status := InProgress, blockReason := None, nextAction := None);
        var sn' := sn.(stories := sn.stories[id := s]);
        Commit(StoryResumed(id),
               if sn.blocker.StoryBlocker? && sn.blocker.id == id then sn'.(blocker := NoBlocker, status := Active)
               else sn')
    case CompleteStory(id) =>
      if id !in sn.stories || sn.stories[id].status != InProgress || sn.stories[id].checkpoints < 1 then Refuse
      else
        var stories := Refresh(sn.stories[id := sn.stories[id].(status := Complete, blockReason := None)]);
        var sn' := sn.(stories := stories);
        Commit(StoryCompleted(id),
               if AllComplete(stories) then sn'.(status := CompleteGoal)
               else if sn.status == BlockedGoal && sn.blocker == NoBlocker then sn'.(status := Active)
               else sn')
    case ImportProposal(path, sha, note) => Commit(ProposalImported(path, sha, note), sn)
    case VerifyGoal(run) =>
      if sn.verified then NothingToDo
      else if sn.status != CompleteGoal || run !in sn.linkedRuns then Refuse
      else Commit(GoalVerified(run),
                  sn.(verified := true, status := VerifiedGoal, verifiedRun := Some(run), verifiedAt := Some(ts)))
  }

  function Saved(sn: Snapshot, e: Event): Snapshot {
    sn.(tailSequence := e.body.sequence, tailHash := e.hash, updatedAt := e.body.ts, revision := sn.revision + 1)
  }

  // ---------- replay ----------

  function Created(goalId: string, e: Event): Snapshot
    requires e.body.payload.GoalCreated?
  {
    var p := e.body.payload;
    Snapshot(goalId, if p.title == "" then goalId else p.title, p.objective, Active, false, ById(p.stories), [],
             p.specHash, p.planHash, e.body.sequence, e.hash, 0, e.body.ts, e.body.ts, NoBlocker,
             Some(e.body.invocation), None, None)
  }

  /** The snapshot of a goal of which nothing is left. */
  function Emptied(goalId: string, now: string): Snapshot {
    Snapshot(goalId, goalId, "", Active, false, map[], [], None, None, 0, GENESIS, 0, now, now, NoBlocker, None, None,
             None)
  }

  /** What one event does to the snapshot under construction; None where the code raises. */
  function ReplayPayload(sn: Snapshot, p: Payload, ts: string): Option<Snapshot> {
    match p
    case RunLinked(run) =>
      Some(if run != "" && run !in sn.linkedRuns then sn.(linkedRuns := sn.linkedRuns + [run]) else sn)
    case StoryStarted(id) =>
      if id !in sn.stories then None
      else Some(sn.(stories := sn.stories[id := sn.stories[id].(status := InProgress, blockReason := None)]))
    case Checkpointed(id, message, path, sha) =>
      if id !in sn.stories then None
      else
        var s := sn.stories[id];
        Some(sn.(stories := sn.stories[id := s.(checkpoints := s.checkpoints + 1,
                                                evidence := s.evidence + [Evidence(path, sha, message, ts)])]))
    case StoryBlocked(id, reason, next) =>
      if id !in sn.stories then None
      else
        var s := sn.stories[id].(status := Blocked, blockReason := Some(reason), nextAction := next);
        Some(sn.(stories := sn.stories[id := s], status := BlockedGoal, blocker := StoryBlocker(id, reason, next)))
    case StoryResumed(id) =>
      if id !in sn.stories || sn.blocker == NoBlocker then None
      else
        var s := sn.stories[id].(status := InProgress, blockReason := None, nextAction := None);
        var sn' := sn.(stories := sn.stories[id := s]);
        Some(if sn.blocker.StoryBlocker? && sn.blocker.id == id then sn'.(blocker := NoBlocker, status := Active)
             else sn')
    case StoryCompleted(id) =>
      if id !in sn.stories then None
      else
        var stories := Refresh(sn.stories[id := sn.stories[id].(status := Complete)]);
        Some(if AllComplete(stories) then sn.(stories := stories, status := CompleteGoal) else sn.(stories := stories))
    case GoalVerified(run) =>
      Some(sn.(verified := true, status := VerifiedGoal, verifiedRun := Some(run), verifiedAt := Some(ts)))
    case _ => Some(sn)
  }

  function Replay(sn: Snapshot, e: Event): Option<Snapshot> {
    match ReplayPayload(sn, e.body.payload, e.body.ts)
    case None => None
    case Some(sn') => Some(sn'.(tailSequence := e.body.sequence, tailHash := e.hash, updatedAt := e.body.ts))
  }

  /** Only a checkpoint touches evidence, and only that of its own story. */
  lemma PayloadEvidence(sn: Snapshot, p: Payload, ts: string, id: string)
    requires ReplayPayload(sn, p, ts).Some?
    ensures var after := ReplayPayload(sn, p, ts).value;
      && after.stories.Keys == sn.stories.Keys
      && (p.Checkpointed? ==> p.id in sn.stories)
      && (id in sn.stories ==>
            after.stories[id].evidence == sn.stories[id].evidence
              + if p.Checkpointed? && p.id == id then [Evidence(p.path, p.sha, p.message, ts)] else [])
  {
    hide AllComplete, DepsDone, Refresh;
    if p.StoryCompleted? && p.id in sn.stories {
      RefreshKeepsEvidence(sn.stories[p.id := sn.stories[p.id].(status := Complete)]);
    }
  }

  lemma RefreshKeepsEvidence(stories: Stories)
    ensures Refresh(stories).Keys == stories.Keys
    ensures forall id :: id in stories ==> Refresh(stories)[id].evidence == stories[id].evidence
  {
    hide DepsDone;
  }

  /** `_rebuild_snapshot_from_events` on a non-empty list; None where it raises. */
  function Rebuild(goalId: string, events: seq<Event>): Option<Snapshot>
    requires |events| > 0
  {
    if |events| == 1 then
      if events[0].body.payload.GoalCreated? then Some(Created(goalId, events[0])) else None
    else
      match Rebuild(goalId, events[..|events| - 1])
      case None => None
      case Some(sn) => Replay(sn, events[|events| - 1])
  }

  /** The same as the loop over the events after the first. */
  method RebuildCode(goalId: string, events: seq<Event>) returns (r: Option<Snapshot>)
    requires |events| > 0
    ensures r == Rebuild(goalId, events)
  {
    hide Replay, Created;
    if !events[0].body.payload.GoalCreated? {
      assert events[..1][0] == events[0];
      RebuildNone(goalId, events, 1);
      return None;
    }
    var sn := Created(goalId, events[0]);
    var i := 1;
    assert events[..1] == [events[0]];
    while i < |events|
      invariant 1 <= i <= |events|
      invariant Rebuild(goalId, events[..i]) == Some(sn)
    {
      assert events[..i + 1][..i] == events[..i];
      var next := Replay(sn, events[i]);
      if next.None? {
        RebuildNone(goalId, events, i + 1);
        return None;
      }
      sn := next.value;
      i := i + 1;
    }
    assert events[..i] == events;
    r := Some(sn);
  }

  lemma {:induction false} RebuildNone(goalId: string, events: seq<Event>, n: nat)
    requires 0 < n <= |events| && Rebuild(goalId, events[..n]).None?
    ensures Rebuild(goalId, events).None?
    decreases |events| - n
  {
    hide Replay, Created;
    if n < |events| {
      assert events[..n + 1][..n] == events[..n];
      RebuildNone(goalId, events, n + 1);
    } else {
      assert events[..n] == events;
    }
  }

  // ---------- the refresh as the loop it is ----------

  /** Ready exactly if all it depends on is complete, unless it has been started. */
  predicate IsRefreshed(stories: Stories, s: Story, after: Story) {
    after == if s.status != Pending && s.status != Ready then s
             else if forall i :: 0 <= i < |s.dependsOn| ==>
                 s.dependsOn[i] in stories && stories[s.dependsOn[i]].status == Complete
             then s.(status := Ready) else s.(status := Pending)
  }

  /** `_refresh_ready`: one story after the other, in place; the order does not matter. */
  method RefreshCode(ids: seq<string>, stories: Stories) returns (r: Stories)
    requires Distinct(ids) && Elems(ids) == stories.Keys
    ensures r == Refresh(stories)
    ensures forall id :: id in stories ==> IsRefreshed(stories, stories[id], r[id])
  {
    hide DepsDone, IsRefreshed, RefreshOne, Distinct;
    r := stories;
    var i := 0;
    while i < |ids|
      invariant 0 <= i <= |ids| && r.Keys == stories.Keys
      invariant forall j :: 0 <= j < i ==> ids[j] in stories && r[ids[j]] == RefreshOne(stories, stories[ids[j]])
      invariant forall j :: i <= j < |ids| ==> ids[j] in stories && r[ids[j]] == stories[ids[j]]
      invariant forall id :: id in stories ==> (r[id].status == Complete <==> stories[id].status == Complete)
    {
      var id := ids[i];
      var s := r[id];
      OneRefresh(stories, r, s);
      OthersApart(ids, i);
      if s.status == Pending || s.status == Ready {
        r := r[id := s.(status := if DepsDone(r, s) then Ready else Pending)];
      }
      i := i + 1;
    }
    forall id | id in stories ensures r[id] == Refresh(stories)[id] {
      assert id in Elems(ids);
    }
    RefreshMeans(stories);
  }

  /** One turn, on stories some of which have been updated. */
  lemma OneRefresh(stories: Stories, r: Stories, s: Story)
    requires stories.Keys == r.Keys
    requires forall id :: id in stories ==> (r[id].status == Complete <==> stories[id].status == Complete)
    ensures RefreshOne(stories, s)
         == if s.status == Pending || s.status == Ready then s.(status := if DepsDone(r, s) then Ready else Pending)
            else s
    ensures RefreshOne(stories, s).status == Complete <==> s.status == Complete
  {
    hide DepsDone;
    SameDone(stories, r, s);
  }

  lemma OthersApart(ids: seq<string>, i: nat)
    requires Distinct(ids) && i < |ids|
    ensures forall j :: 0 <= j < |ids| && j != i ==> ids[j] != ids[i]
  {}

  lemma RefreshMeans(stories: Stories)
    ensures forall id :: id in stories ==> IsRefreshed(stories, stories[id], Refresh(stories)[id])
  {
    forall id | id in stories ensures IsRefreshed(stories, stories[id], Refresh(stories)[id])
    {
      var s := stories[id];
      assert forall i :: 0 <= i < |s.dependsOn| ==>
        (IsComplete(stories, s.dependsOn[i]) <==>
         s.dependsOn[i] in stories && stories[s.dependsOn[i]].status == Complete);
    }
  }

  lemma SameDone(a: Stories, b: Stories, s: Story)
    requires a.Keys == b.Keys
    requires forall id :: id in a ==> (b[id].status == Complete <==> a[id].status == Complete)
    ensures DepsDone(a, s) <==> DepsDone(b, s)
  {
    if DepsDone(a, s) {
      forall i | 0 <= i < |s.dependsOn| ensures IsComplete(b, s.dependsOn[i]) { assert IsComplete(a, s.dependsOn[i]); }
    }
    if DepsDone(b, s) {
      forall i | 0 <= i < |s.dependsOn| ensures IsComplete(a, s.dependsOn[i]) { assert IsComplete(b, s.dependsOn[i]); }
    }
  }

  // ---------- the invariant ----------

  /** One story fits the others: it waits exactly while a dependency is unfinished. */
  predicate StoryInv(stories: Stories, id: string)
    requires id in stories
  {
    var s := stories[id];
    && (s.status == Pending <==> !DepsDone(stories, s))
    && (s.status != Blocked ==> s.blockReason == None)
    && (s.status == Complete ==> s.checkpoints > 0)
    && Elems(s.dependsOn) <= stories.Keys
  }

  predicate StoriesInv(stories: Stories) {
    stories != map[] && forall id :: id in stories ==> StoryInv(stories, id)
  }

  predicate StatusInv(sn: Snapshot) {
    && sn.status != ForensicGoal && !sn.blocker.ForensicBlocker?
    && (sn.status == BlockedGoal <==> sn.blocker.StoryBlocker?)
    && (sn.blocker.StoryBlocker? ==> sn.blocker.id in sn.stories && sn.stories[sn.blocker.id].status == Blocked)
    && (AllComplete(sn.stories) <==> sn.status == CompleteGoal || sn.status == VerifiedGoal)
    && (sn.verified <==> sn.status == VerifiedGoal)
  }

  ghost predicate GoalInv(sn: Snapshot) {
    StoriesInv(sn.stories) && StatusInv(sn) && Acyclic(DepsOf(sn.stories))
  }

  // ---------- agreement of a live and a rebuilt snapshot ----------

  function EraseAt(es: seq<Evidence>): (r: seq<Evidence>)
    ensures |r| == |es| && forall i :: 0 <= i < |r| ==> r[i] == es[i].(at := "")
  {
    seq(|es|, i requires 0 <= i < |es| => es[i].(at := ""))
  }

  function EraseStory(s: Story): Story { s.(evidence := EraseAt(s.evidence)) }

  predicate SameStories(a: Stories, b: Stories) {
    a.Keys == b.Keys && forall id :: id in a ==> EraseStory(a[id]) == EraseStory(b[id])
  }

  /** Equal but for the revision counter and the times inside evidence; a blank title reads as the goal id. */
  predicate Agrees(live: Snapshot, rebuilt: Snapshot) {
    && SameStories(live.stories, rebuilt.stories)
    && rebuilt == live.(revision := rebuilt.revision, stories := rebuilt.stories,
                        title := if live.title == "" then live.goalId else live.title)
  }
}
