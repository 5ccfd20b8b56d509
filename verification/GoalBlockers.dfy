/** One blocker is kept for many blocked stories: exactly when a blocked story can be resumed, now or later. */
module GoalBlockers {
  import opened Text
  import opened Options
  import opened StoryGraph
  import opened GoalLedger
  import opened GoalModel
  import opened GoalReplay
  import opened GoalRuns
  import opened GoalTheorems

  // ---------- one resume ----------

  /** In a good state a blocked story is resumed exactly when a blocker is on record, whichever story it names. */
  lemma ResumeExactly(sn: Snapshot, id: string, ts: string)
    requires GoalInv(sn) && id in sn.stories && sn.stories[id].status == Blocked
    ensures Live(sn, ResumeStory(id), ts).Commit? <==> sn.blocker != NoBlocker
    ensures sn.blocker != NoBlocker <==> sn.status == BlockedGoal
    ensures sn.blocker != NoBlocker ==> Live(sn, ResumeStory(id), ts).snapshot.stories[id].status == InProgress
  {
    hide StoriesInv, Acyclic, AllComplete;
  }

  /** The same in every state a goal gets into that loads. */
  lemma ResumeOnRuns(h: Hash, goalId: string, states: seq<State>, steps: seq<Step>, n: nat, id: string, ts: string,
                     invocation: string)
    requires Injective(h) && goalId != "" && Run(h, goalId, states, steps) && n <= |steps| && Load(h, states[n]).Some?
    requires id in states[n].snapshot.stories && states[n].snapshot.stories[id].status == Blocked
    ensures var s, t := states[n], DoOp(h, states[n], ResumeStory(id), ts, invocation);
      if s.snapshot.status == BlockedGoal then id in t.snapshot.stories && t.snapshot.stories[id].status == InProgress
      else t == s
  {
    hide Run, ScanLedger, GoalInv, Legal, Rebuild, Injective, MatchesTail, Agrees, NextEvent, AppendLine, Live;
    RunInv(h, goalId, states, steps, n);
    var s := states[n];
    if Broken(h, s.file.lines) {
      BrokenScan(h, s.file.lines);
      assert false;
    }
    var events :| Tracks(h, goalId, s, events);
    LoadTracked(h, goalId, s, events);
    assert Legal(goalId, events);
    ResumeExactly(s.snapshot, id, ts);
    ResumeKeeps(s.snapshot, id, ts);
  }

  lemma ResumeKeeps(sn: Snapshot, id: string, ts: string)
    ensures Live(sn, ResumeStory(id), ts).Commit? ==> id in Live(sn, ResumeStory(id), ts).snapshot.stories
  {}

  // ---------- stranded stories ----------

  /** Blocked, with no blocker on record. */
  predicate Stranded(sn: Snapshot, id: string) {
    id in sn.stories && sn.stories[id].status == Blocked && sn.blocker == NoBlocker
  }

  /** Some story is ready or started, so that it can be blocked. */
  predicate CanMove(stories: Stories) {
    exists id :: id in stories && stories[id].status in {Ready, InProgress}
  }

  /**
   Two stories blocked one after the other, the second resumed: the goal counts as active with the
   first story still blocked, and resuming that one is refused.
   */
  lemma SecondBlockerStrandsFirst(sn: Snapshot, a: string, b: string, reason: string, next: string, ts: string)
    returns (first: Snapshot, second: Snapshot, third: Snapshot)
    requires GoalInv(sn) && a != b && a in sn.stories && b in sn.stories && Strip(reason) != ""
    requires sn.stories[a].status in {InProgress, Ready} && sn.stories[b].status in {InProgress, Ready}
    ensures Live(sn, BlockStory(a, reason, next), ts)
      == Commit(StoryBlocked(a, Strip(reason), OrNone(Strip(next))), first)
    ensures Live(first, BlockStory(b, reason, next), ts)
      == Commit(StoryBlocked(b, Strip(reason), OrNone(Strip(next))), second)
    ensures Live(second, ResumeStory(b), ts) == Commit(StoryResumed(b), third)
    ensures third.status == Active && Stranded(third, a)
    ensures Live(third, ResumeStory(a), ts) == Refuse
  {
    hide Strip, Acyclic, StoriesInv, AllComplete, Refresh;
    first := Live(sn, BlockStory(a, reason, next), ts).snapshot;
    second := Live(first, BlockStory(b, reason, next), ts).snapshot;
    third := Live(second, ResumeStory(b), ts).snapshot;
  }

  /** The way out: another story is blocked, and with its blocker on record the stranded one resumes. */
  lemma BlockingFrees(sn: Snapshot, id: string, other: string, reason: string, next: string, ts: string)
    returns (blocked: Snapshot, freed: Snapshot)
    requires Stranded(sn, id) && other in sn.stories && sn.stories[other].status in {Ready, InProgress}
    requires Strip(reason) != ""
    ensures Live(sn, BlockStory(other, reason, next), ts)
      == Commit(StoryBlocked(other, Strip(reason), OrNone(Strip(next))), blocked)
    ensures Live(blocked, ResumeStory(id), ts) == Commit(StoryResumed(id), freed)
    ensures id in freed.stories && freed.stories[id].status == InProgress
  {
    hide Strip;
    blocked := Live(sn, BlockStory(other, reason, next), ts).snapshot;
    freed := Live(blocked, ResumeStory(id), ts).snapshot;
  }

  /** Nothing but blocking another story helps: every other operation leaves a stranded story stranded. */
  lemma StrandedStays(sn: Snapshot, op: Op, ts: string, id: string)
    requires GoalInv(sn) && Stranded(sn, id) && !op.BlockStory? && Live(sn, op, ts).Commit?
    ensures Stranded(Live(sn, op, ts).snapshot, id)
  {
    hide StoryInv, Strip, Identifier, Acyclic, DepsOf, DepsDone;
    if op.StartStory? { RefreshNoOp(sn.stories); }
  }

  /** The snapshot after some operations; refused ones leave it as it is. */
  function After(sn: Snapshot, ops: seq<Op>, ts: string): Snapshot
    decreases |ops|
  {
    if |ops| == 0 then sn
    else
      match Live(sn, ops[0], ts)
      case Commit(_, sn') => After(sn', ops[1..], ts)
      case _ => After(sn, ops[1..], ts)
  }

  /** Some operations get the story going again. */
  ghost predicate Recovers(sn: Snapshot, id: string, ts: string) {
    exists ops :: Freed(sn, id, ops, ts)
  }

  predicate Freed(sn: Snapshot, id: string, ops: seq<Op>, ts: string) {
    id in After(sn, ops, ts).stories && After(sn, ops, ts).stories[id].status != Blocked
  }

  /** Where nothing can move, operations leave the stories as they are. */
  lemma NothingMoves(sn: Snapshot, op: Op, ts: string)
    requires GoalInv(sn) && !CanMove(sn.stories) && sn.blocker == NoBlocker && Live(sn, op, ts).Commit?
    ensures Live(sn, op, ts).snapshot.stories == sn.stories && Live(sn, op, ts).snapshot.blocker == NoBlocker
  {
    hide StoryInv, Strip, Identifier, Acyclic, DepsOf, DepsDone;
    if op.StartStory? { RefreshNoOp(sn.stories); }
  }

  lemma {:induction false} NeverMoves(sn: Snapshot, ops: seq<Op>, ts: string)
    requires GoalInv(sn) && !CanMove(sn.stories) && sn.blocker == NoBlocker
    ensures After(sn, ops, ts).stories == sn.stories
    decreases |ops|
  {
    hide Live, CanMove, GoalInv;
    if |ops| > 0 {
      if Live(sn, ops[0], ts).Commit? {
        NothingMoves(sn, ops[0], ts);
        LiveKeepsInv(sn, ops[0], ts);
        NeverMoves(Live(sn, ops[0], ts).snapshot, ops[1..], ts);
      } else {
        NeverMoves(sn, ops[1..], ts);
      }
    }
  }

  /** Exactly where some story can still be blocked, a stranded story can be got going again; elsewhere it is lost. */
  lemma StrandedRecoversExactly(sn: Snapshot, id: string, ts: string)
    requires GoalInv(sn) && Stranded(sn, id)
    ensures Recovers(sn, id, ts) <==> CanMove(sn.stories)
  {
    hide GoalInv, Live, After;
    if CanMove(sn.stories) {
      var other :| other in sn.stories && sn.stories[other].status in {Ready, InProgress};
      assert Strip("x") == "x" by { StripWord(); }
      var blocked, freed := BlockingFrees(sn, id, other, "x", "", ts);
      TwoOps(sn, BlockStory(other, "x", ""), ResumeStory(id), ts, blocked, freed);
      assert Freed(sn, id, [BlockStory(other, "x", ""), ResumeStory(id)], ts);
    }
    if Recovers(sn, id, ts) && !CanMove(sn.stories) {
      var ops :| Freed(sn, id, ops, ts);
      NeverMoves(sn, ops, ts);
      assert false;
    }
  }

  lemma TwoOps(sn: Snapshot, a: Op, b: Op, ts: string, first: Snapshot, second: Snapshot)
    requires Live(sn, a, ts).Commit? && Live(sn, a, ts).snapshot == first
    requires Live(first, b, ts).Commit? && Live(first, b, ts).snapshot == second
    ensures After(sn, [a, b], ts) == second
  {
    hide Live;
    assert [a, b][1..] == [b] && [b][1..] == [];
    assert After(second, [], ts) == second;
    assert After(first, [b], ts) == second;
  }

  lemma StripWord()
    ensures Strip("x") == "x"
  {}
}
