/**
 Exactly when each operation on a goal is accepted, and all it then changes, in every state a goal gets
 into that loads; and that working through the stories in any order of their dependencies verifies it.
 */
module GoalAcceptance {
  import opened Text
  import opened Options
  import opened StoryGraph
  import opened GoalLedger
  import opened GoalModel
  import opened GoalReplay
  import opened GoalRuns
  import opened GoalTheorems

  // ---------- one operation ----------

  /** What a loaded snapshot is like: in the invariant, or of a goal of which a repair found nothing left. */
  ghost predicate Sound(sn: Snapshot) { GoalInv(sn) || OrphanSnapshot(sn) }

  /** Two snapshots of one goal differ in nothing but stories, status and blocker. */
  predicate SameGoal(a: Snapshot, b: Snapshot) {
    b == a.(stories := b.stories, status := b.status, blocker := b.blocker)
  }

  /** They differ in one story, which keeps its text, its dependencies and its evidence. */
  predicate OnlyStory(a: Snapshot, b: Snapshot, id: string) {
    && SameGoal(a, b) && id in a.stories && a.stories.Keys == b.stories.Keys
    && (forall x :: x in a.stories && x != id ==> b.stories[x] == a.stories[x])
    && var s, t := a.stories[id], b.stories[id];
       t == s.(status := t.status, blockReason := t.blockReason, nextAction := t.nextAction)
  }

  predicate HasInk(s: string) { exists i :: 0 <= i < |s| && !IsSpace(s[i]) }

  lemma StripsToInk(s: string)
    ensures Strip(s) != "" <==> HasInk(s)
  {
    StripProps(s);
  }

  /** A story is started if and only if it is ready; nothing else changes. */
  lemma StartExactly(sn: Snapshot, id: string, ts: string)
    requires Sound(sn)
    ensures var r := Live(sn, StartStory(id), ts);
      && (r.Commit? <==> id in sn.stories && sn.stories[id].status == Ready)
      && (!r.Commit? ==> r == Refuse)
      && (r.Commit? ==>
            && r.payload == StoryStarted(id) && OnlyStory(sn, r.snapshot, id)
            && r.snapshot.status == sn.status && r.snapshot.blocker == sn.blocker
            && r.snapshot.stories[id].status == InProgress && r.snapshot.stories[id].blockReason == None
            && r.snapshot.stories[id].nextAction == sn.stories[id].nextAction)
  {
    hide StoryInv, Acyclic, AllComplete, Refresh;
    RefreshSound(sn);
  }

  lemma RefreshSound(sn: Snapshot)
    requires Sound(sn)
    ensures Refresh(sn.stories) == sn.stories && sn.status != ForensicGoal
  {
    hide StoriesInv, Acyclic, AllComplete, Refresh;
    if GoalInv(sn) { RefreshNoOp(sn.stories); } else { NoStoriesRefresh(); }
  }

  lemma NoStoriesRefresh()
    ensures Refresh(map[]) == map[]
  {}

  /** A checkpoint is taken if and only if the story is in progress and the message is not blank. */
  lemma CheckpointExactly(sn: Snapshot, id: string, path: string, sha: string, message: string, at: string, ts: string)
    ensures var r := Live(sn, Checkpoint(id, path, sha, message, at), ts);
      && (r.Commit? <==> HasInk(message) && id in sn.stories && sn.stories[id].status == InProgress)
      && (!r.Commit? ==> r == Refuse)
      && (r.Commit? ==>
            && r.payload == Checkpointed(id, Strip(message), path, sha)
            && r.snapshot == sn.(stories := r.snapshot.stories)
            && r.snapshot.stories.Keys == sn.stories.Keys
            && (forall x :: x in sn.stories && x != id ==> r.snapshot.stories[x] == sn.stories[x])
            && r.snapshot.stories[id] == sn.stories[id].(
                 checkpoints := sn.stories[id].checkpoints + 1,
                 evidence := sn.stories[id].evidence + [Evidence(path, sha, Strip(message), at)]))
  {
    hide Strip;
    StripsToInk(message);
  }

  /** A story is blocked if and only if it is ready or in progress and the reason is not blank; so is its goal. */
  lemma BlockExactly(sn: Snapshot, id: string, reason: string, next: string, ts: string)
    ensures var r := Live(sn, BlockStory(id, reason, next), ts);
      && (r.Commit? <==>
            HasInk(reason) && id in sn.stories
            && (sn.stories[id].status == Ready || sn.stories[id].status == InProgress))
      && (!r.Commit? ==> r == Refuse)
      && (r.Commit? ==>
            var nextAction := if HasInk(next) then Some(Strip(next)) else None;
            && r.payload == StoryBlocked(id, Strip(reason), nextAction) && OnlyStory(sn, r.snapshot, id)
            && r.snapshot.status == BlockedGoal
            && r.snapshot.blocker == StoryBlocker(id, Strip(reason), nextAction)
            && r.snapshot.stories[id].status == Blocked && r.snapshot.stories[id].blockReason == Some(Strip(reason))
            && r.snapshot.stories[id].nextAction == nextAction)
  {
    hide Strip, HasInk;
    StripsToInk(reason);
    StripsToInk(next);
  }

  /** A story is resumed if and only if it is blocked and so is its goal, whichever story the blocker names. */
  lemma ResumesExactly(sn: Snapshot, id: string, ts: string)
    requires Sound(sn)
    ensures var r := Live(sn, ResumeStory(id), ts);
      && (r.Commit? <==> id in sn.stories && sn.stories[id].status == Blocked && sn.status == BlockedGoal)
      && (!r.Commit? ==> r == Refuse)
      && (r.Commit? ==>
            && r.payload == StoryResumed(id) && OnlyStory(sn, r.snapshot, id) && sn.blocker.StoryBlocker?
            && r.snapshot.stories[id].status == InProgress && r.snapshot.stories[id].blockReason == None
            && r.snapshot.stories[id].nextAction == None
            && (if sn.blocker.id == id then r.snapshot.status == Active && r.snapshot.blocker == NoBlocker
                else r.snapshot.status == sn.status && r.snapshot.blocker == sn.blocker))
  {
    hide StoriesInv, Acyclic, AllComplete;
  }

  /**
   A story completes if and only if it is in progress with at least one checkpoint.  Then it is complete,
   each story that waited is ready exactly when all it depends on now is complete, and the goal is
   complete exactly when every story now is.
   */
  lemma CompleteExactly(sn: Snapshot, id: string, ts: string)
    requires Sound(sn)
    ensures var r := Live(sn, CompleteStory(id), ts);
      && (r.Commit? <==>
            id in sn.stories && sn.stories[id].status == InProgress && sn.stories[id].checkpoints >= 1)
      && (!r.Commit? ==> r == Refuse)
      && (r.Commit? ==>
            var before, after := sn.stories, r.snapshot.stories;
            && r.payload == StoryCompleted(id) && SameGoal(sn, r.snapshot) && after.Keys == before.Keys
            && after[id] == before[id].(status := Complete)
            && (forall x :: x in before && x != id ==>
                  after[x] == if before[x].status == Pending && AllIn(before[x].dependsOn, after)
                              then before[x].(status := Ready) else before[x])
            && r.snapshot.blocker == sn.blocker
            && r.snapshot.status == if forall x :: x in after ==> after[x].status == Complete
                                    then CompleteGoal else sn.status)
  {
    hide StoryInv, Acyclic, Refresh, DepsOf;
    var r := Live(sn, CompleteStory(id), ts);
    if r.Commit? {
      NotBlockedNoReason(sn.stories, id);
      CompletedStories(sn.stories, id);
    }
  }

  /** All of them are there and complete. */
  predicate AllIn(ids: seq<string>, stories: Stories) {
    forall i :: 0 <= i < |ids| ==> ids[i] in stories && stories[ids[i]].status == Complete
  }

  lemma CompletedStories(before: Stories, id: string)
    requires StoriesInv(before) && id in before && before[id].status == InProgress
    ensures var after := Refresh(before[id := before[id].(status := Complete, blockReason := None)]);
      && after.Keys == before.Keys && after[id] == before[id].(status := Complete)
      && forall x :: x in before && x != id ==>
           after[x] == if before[x].status == Pending && AllIn(before[x].dependsOn, after)
                       then before[x].(status := Ready) else before[x]
  {
    hide DepsDone, AllIn;
    NotBlockedNoReason(before, id);
    var mid := before[id := before[id].(status := Complete, blockReason := None)];
    var after := Refresh(mid);
    forall x | x in before && x != id
      ensures after[x] == if before[x].status == Pending && AllIn(before[x].dependsOn, after)
                          then before[x].(status := Ready) else before[x]
    {
      DoneBoth(mid, after, before[x]);
      assert StoryInv(before, x);
      if DepsDone(before, before[x]) { StillDone(before, mid, before[x]); }
    }
  }

  lemma DoneBoth(mid: Stories, after: Stories, s: Story)
    requires after == Refresh(mid)
    ensures DepsDone(mid, s) <==> AllIn(s.dependsOn, after)
  {
    forall x ensures IsComplete(mid, x) <==> (x in after && after[x].status == Complete) {}
    if DepsDone(mid, s) {
      forall i | 0 <= i < |s.dependsOn| ensures IsComplete(after, s.dependsOn[i]) {
        assert IsComplete(mid, s.dependsOn[i]);
      }
    }
  }

  lemma StillDone(before: Stories, mid: Stories, s: Story)
    requires DepsDone(before, s) && forall x :: IsComplete(before, x) ==> IsComplete(mid, x)
    ensures DepsDone(mid, s)
  {
    hide IsComplete;
  }

  /** A run is linked if and only if its id is one and it is not linked yet; linked already, nothing is left to do. */
  lemma LinkExactly(sn: Snapshot, run: string, ts: string)
    ensures var r := Live(sn, LinkRun(run), ts);
      && (r.Commit? <==> Identifier(run) && run !in sn.linkedRuns)
      && (r == NothingToDo <==> Identifier(run) && run in sn.linkedRuns)
      && (r.Commit? ==>
            && r.payload == RunLinked(run)
            && r.snapshot == sn.(linkedRuns := r.snapshot.linkedRuns)
            && |r.snapshot.linkedRuns| == |sn.linkedRuns| + 1 && sn.linkedRuns <= r.snapshot.linkedRuns
            && r.snapshot.linkedRuns[|sn.linkedRuns|] == run)
  {}

  /**
   A goal is verified by a run if and only if every one of its stories is complete, it is not verified yet
   and the run is linked; verified already, nothing is left to do.
   */
  lemma VerifyExactly(sn: Snapshot, run: string, ts: string)
    requires Sound(sn)
    ensures var r := Live(sn, VerifyGoal(run), ts);
      && (r.Commit? <==>
            && sn.stories != map[] && (forall id :: id in sn.stories ==> sn.stories[id].status == Complete)
            && !sn.verified && run in sn.linkedRuns)
      && (r == NothingToDo <==> sn.verified)
      && (r.Commit? ==>
            && r.payload == GoalVerified(run)
            && r.snapshot == sn.(verified := true, status := r.snapshot.status, verifiedRun := Some(run),
                                 verifiedAt := Some(ts))
            && r.snapshot.status == VerifiedGoal)
  {
    hide StoryInv, Acyclic;
  }

  // ---------- in every state that loads ----------

  /** Nothing is written unless the operation is accepted; then it is one event and the new snapshot. */
  lemma AcceptedOnRuns(h: Hash, goalId: string, states: seq<State>, steps: seq<Step>, n: nat, op: Op, ts: string,
                       invocation: string)
    requires Injective(h) && goalId != "" && Run(h, goalId, states, steps) && n <= |steps| && Load(h, states[n]).Some?
    ensures var s, t := states[n], DoOp(h, states[n], op, ts, invocation);
      && Sound(s.snapshot)
      && var r := Live(s.snapshot, op, ts);
         if !r.Commit? then t == s
         else
           && t != s && t.snapshot.revision == s.snapshot.revision + 1 && t.backups == s.backups
           && t.snapshot == r.snapshot.(tailSequence := t.snapshot.tailSequence, tailHash := t.snapshot.tailHash,
                                        updatedAt := ts, revision := t.snapshot.revision)
           && (s.file.terminated ==>
                 && Load(h, t).Some? && |Load(h, t).value| == |Load(h, s).value| + 1
                 && Load(h, s).value <= Load(h, t).value
                 && Load(h, t).value[|Load(h, s).value|].body.payload == r.payload)
  {
    hide Run, ScanLedger, GoalInv, Legal, Rebuild, Injective, MatchesTail, Agrees, Live, OrphanSnapshot, Linked;
    RunInv(h, goalId, states, steps, n);
    var s := states[n];
    if Broken(h, s.file.lines) {
      BrokenScan(h, s.file.lines);
      assert false;
    }
    var events :| Tracks(h, goalId, s, events);
    LoadTracked(h, goalId, s, events);
    var r := Live(s.snapshot, op, ts);
    if r.Commit? {
      KeepsGoalId(s.snapshot, op, ts);
      KeepsRevision(s.snapshot, op, ts);
      var e := NextEvent(h, events, r.snapshot.goalId, ts, invocation, r.payload);
      NextEventLinks(h, events, r.snapshot.goalId, ts, invocation, r.payload);
      AppendLoads(h, s, events, r.snapshot, e);
    }
  }

  lemma KeepsRevision(sn: Snapshot, op: Op, ts: string)
    requires Live(sn, op, ts).Commit?
    ensures Live(sn, op, ts).snapshot.revision == sn.revision
  {
    hide Refresh, Strip, AllComplete;
  }

  /** In every state that loads, a story is completed if and only if it is in progress with a checkpoint. */
  lemma CompletesOnRuns(h: Hash, goalId: string, states: seq<State>, steps: seq<Step>, n: nat, id: string, ts: string,
                        invocation: string)
    requires Injective(h) && goalId != "" && Run(h, goalId, states, steps) && n <= |steps| && Load(h, states[n]).Some?
    ensures var s, t := states[n], DoOp(h, states[n], CompleteStory(id), ts, invocation);
      var before, after := s.snapshot.stories, t.snapshot.stories;
      if id in before && before[id].status == InProgress && before[id].checkpoints >= 1 then
        && after.Keys == before.Keys && after[id].status == Complete
        && forall x :: x in before && x != id && before[x].status == Pending ==>
             (after[x].status == Ready <==> AllIn(before[x].dependsOn, after))
      else t == s
  {
    hide Load, DoOp, Sound, AllIn, Injective, Live, SameGoal, StepOk, IsInit;
    AcceptedOnRuns(h, goalId, states, steps, n, CompleteStory(id), ts, invocation);
    CompleteExactly(states[n].snapshot, id, ts);
  }
}
