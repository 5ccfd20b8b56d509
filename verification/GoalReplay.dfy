/** Operations keep the goal invariant, and replaying their events keeps up with the live snapshot. */
module GoalReplay {
  import opened Text
  import opened Options
  import opened StoryGraph
  import opened GoalLedger
  import opened GoalModel

  // ---------- the invariant ----------

  lemma RefreshNoOp(stories: Stories)
    requires StoriesInv(stories)
    ensures Refresh(stories) == stories
  {
    hide DepsDone;
    forall id | id in stories ensures RefreshOne(stories, stories[id]) == stories[id] {
      assert StoryInv(stories, id);
    }
  }

  /** Completed dependencies stay completed when no complete story changes its status. */
  lemma DoneMonotone(a: Stories, b: Stories, s: Story)
    requires forall id :: IsComplete(a, id) ==> IsComplete(b, id)
    ensures DepsDone(a, s) ==> DepsDone(b, s)
  {
    hide IsComplete;
  }

  /** A story that moves between started states, its dependencies being complete. */
  lemma MoveStory(stories: Stories, id: string, s: Story)
    requires StoriesInv(stories) && id in stories
    requires stories[id].status != Pending && stories[id].status != Complete
    requires s.status != Pending && s.status != Complete && s.dependsOn == stories[id].dependsOn
    requires s.status != Blocked ==> s.blockReason == None
    ensures StoriesInv(stories[id := s]) && DepsOf(stories[id := s]) == DepsOf(stories)
  {
    hide DepsDone;
    var after := stories[id := s];
    forall x ensures IsComplete(stories, x) <==> IsComplete(after, x) {}
    forall x | x in after ensures StoryInv(after, x) {
      assert StoryInv(stories, x);
      DoneMonotone(stories, after, after[x]);
      DoneMonotone(after, stories, after[x]);
      DependsOnly(stories, stories[x], after[x]);
    }
    assert id in after;
  }

  /** A story that completes makes others ready, never unready. */
  lemma CompleteOne(stories: Stories, id: string, s: Story)
    requires StoriesInv(stories) && id in stories && stories[id].status == InProgress
    requires s == stories[id].(status := Complete) && s.checkpoints > 0
    ensures var after := Refresh(stories[id := s]);
      && StoriesInv(after) && DepsOf(after) == DepsOf(stories) && after[id].status == Complete
      && (forall x :: x in stories && x != id ==> (after[x].status == Complete <==> stories[x].status == Complete))
      && (forall x :: x in stories && x != id ==> (after[x].status == Blocked <==> stories[x].status == Blocked))
  {
    hide DepsDone, StoryInv;
    var mid := stories[id := s];
    var after := Refresh(mid);
    forall x | x in after ensures StoryInv(after, x) {
      CompletedStory(stories, id, s, x);
    }
    assert id in after;
  }

  lemma CompletedStory(stories: Stories, id: string, s: Story, x: string)
    requires StoriesInv(stories) && id in stories && stories[id].status == InProgress && x in stories
    requires s == stories[id].(status := Complete) && s.checkpoints > 0
    ensures StoryInv(Refresh(stories[id := s]), x)
  {
    hide DepsDone;
    var mid := stories[id := s];
    var after := Refresh(mid);
    forall x ensures (IsComplete(after, x) <==> IsComplete(mid, x))
        && (IsComplete(stories, x) ==> IsComplete(mid, x)) {}
    assert StoryInv(stories, x);
    DoneMonotone(stories, mid, mid[x]);
    DependsOnly(stories, stories[x], mid[x]);
    DoneMonotone(mid, after, mid[x]);
    DoneMonotone(after, mid, mid[x]);
    DependsOnly(mid, mid[x], after[x]);
    DependsOnly(after, mid[x], after[x]);
  }

  lemma DependsOnly(stories: Stories, s: Story, t: Story)
    requires s.dependsOn == t.dependsOn
    ensures DepsDone(stories, s) <==> DepsDone(stories, t)
  {}

  /** Every committed operation keeps the invariant. */
  lemma LiveKeepsInv(sn: Snapshot, op: Op, ts: string)
    requires GoalInv(sn) && Live(sn, op, ts).Commit?
    ensures GoalInv(Live(sn, op, ts).snapshot)
  {
    hide StoryInv, Strip, Identifier, Acyclic, DepsOf, Refresh;
    var sn' := Live(sn, op, ts).snapshot;
    match op
    case LinkRun(run) =>
    case StartStory(id) =>
      RefreshNoOp(sn.stories);
      assert StoryInv(sn.stories, id);
      MoveStory(sn.stories, id, sn'.stories[id]);
    case Checkpoint(id, path, sha, message, at) =>
      NotBlockedNoReason(sn.stories, id);
      MoveStory(sn.stories, id, sn'.stories[id]);
    case BlockStory(id, reason, next) =>
      MoveStory(sn.stories, id, sn'.stories[id]);
    case ResumeStory(id) =>
      MoveStory(sn.stories, id, sn'.stories[id]);
    case CompleteStory(id) =>
      NotBlockedNoReason(sn.stories, id);
      CompleteOne(sn.stories, id, sn.stories[id].(status := Complete, blockReason := None));
    case ImportProposal(path, sha, note) =>
    case VerifyGoal(run) =>
  }

  lemma NotBlockedNoReason(stories: Stories, id: string)
    requires StoriesInv(stories) && id in stories && stories[id].status == InProgress
    ensures stories[id].blockReason == None
  {
    assert StoryInv(stories, id);
  }

  // ---------- agreement ----------

  lemma SameDoneErased(a: Stories, b: Stories, s: Story, t: Story)
    requires SameStories(a, b) && EraseStory(s) == EraseStory(t)
    ensures DepsDone(a, s) <==> DepsDone(b, t)
  {
    assert s.dependsOn == EraseStory(s).dependsOn == t.dependsOn;
    forall id ensures IsComplete(a, id) <==> IsComplete(b, id) {
      if id in a { assert EraseStory(a[id]).status == EraseStory(b[id]).status; }
    }
    DoneMonotone(a, b, s);
    DoneMonotone(b, a, s);
  }

  lemma SameAllComplete(a: Stories, b: Stories)
    requires SameStories(a, b)
    ensures AllComplete(a) <==> AllComplete(b)
  {
    forall id | id in a ensures a[id].status == b[id].status {
      assert EraseStory(a[id]).status == EraseStory(b[id]).status;
    }
  }

  lemma SameRefresh(a: Stories, b: Stories)
    requires SameStories(a, b)
    ensures SameStories(Refresh(a), Refresh(b))
  {
    hide DepsDone, EraseAt;
    forall id | id in a ensures EraseStory(Refresh(a)[id]) == EraseStory(Refresh(b)[id]) {
      SameDoneErased(a, b, a[id], b[id]);
      assert EraseStory(a[id]).status == EraseStory(b[id]).status;
      assert EraseStory(a[id].(status := Ready)) == EraseStory(a[id]).(status := Ready);
      assert EraseStory(b[id].(status := Ready)) == EraseStory(b[id]).(status := Ready);
      assert EraseStory(a[id].(status := Pending)) == EraseStory(a[id]).(status := Pending);
      assert EraseStory(b[id].(status := Pending)) == EraseStory(b[id]).(status := Pending);
    }
  }

  lemma SameUpdate(a: Stories, b: Stories, id: string, s: Story, t: Story)
    requires SameStories(a, b) && EraseStory(s) == EraseStory(t)
    ensures SameStories(a[id := s], b[id := t])
  {}

  lemma EraseAppend(x: seq<Evidence>, y: seq<Evidence>, e: Evidence, f: Evidence)
    requires EraseAt(x) == EraseAt(y) && e.(at := "") == f.(at := "")
    ensures EraseAt(x + [e]) == EraseAt(y + [f])
  {
    assert |EraseAt(x)| == |EraseAt(y)|;
    forall i | 0 <= i < |x| + 1 ensures EraseAt(x + [e])[i] == EraseAt(y + [f])[i] {
      if i < |x| { assert EraseAt(x)[i] == EraseAt(y)[i]; }
    }
  }

  lemma EraseMove(s: Story, t: Story, status: Status, reason: Option<string>, next: Option<string>)
    requires EraseStory(s) == EraseStory(t)
    ensures EraseStory(s.(status := status, blockReason := reason, nextAction := next))
         == EraseStory(t.(status := status, blockReason := reason, nextAction := next))
    ensures s.blockReason == t.blockReason && s.nextAction == t.nextAction && s.checkpoints == t.checkpoints
    ensures s.status == t.status
  {
    hide EraseAt;
    var e := EraseStory(s).(status := status, blockReason := reason, nextAction := next);
    assert e == EraseStory(s.(status := status, blockReason := reason, nextAction := next));
    assert e == EraseStory(t.(status := status, blockReason := reason, nextAction := next));
    assert EraseStory(s).blockReason == EraseStory(t).blockReason
        && EraseStory(s).nextAction == EraseStory(t).nextAction;
    assert EraseStory(s).checkpoints == EraseStory(t).checkpoints && EraseStory(s).status == EraseStory(t).status;
  }

  /** The same move of a story on both sides. */
  lemma SameMove(a: Stories, b: Stories, id: string, status: Status, reason: Option<string>, next: Option<string>)
    requires SameStories(a, b) && id in a
    ensures SameStories(a[id := a[id].(status := status, blockReason := reason, nextAction := next)],
                        b[id := b[id].(status := status, blockReason := reason, nextAction := next)])
    ensures a[id].blockReason == b[id].blockReason && a[id].nextAction == b[id].nextAction
    ensures a[id].status == b[id].status
  {
    hide EraseAt, EraseStory;
    EraseMove(a[id], b[id], status, reason, next);
    SameUpdate(a, b, id, a[id].(status := status, blockReason := reason, nextAction := next),
                         b[id].(status := status, blockReason := reason, nextAction := next));
  }

  /** The same checkpoint on both sides, but for its time. */
  lemma SameCheckpoint(a: Stories, b: Stories, id: string, x: Evidence, y: Evidence)
    requires SameStories(a, b) && id in a && x.(at := "") == y.(at := "")
    ensures SameStories(a[id := a[id].(checkpoints := a[id].checkpoints + 1, evidence := a[id].evidence + [x])],
                        b[id := b[id].(checkpoints := b[id].checkpoints + 1, evidence := b[id].evidence + [y])])
  {
    hide EraseAt;
    assert EraseStory(a[id]) == EraseStory(b[id]);
    EraseAppend(a[id].evidence, b[id].evidence, x, y);
    var s := a[id].(checkpoints := a[id].checkpoints + 1, evidence := a[id].evidence + [x]);
    var t := b[id].(checkpoints := b[id].checkpoints + 1, evidence := b[id].evidence + [y]);
    assert EraseStory(s) == EraseStory(a[id]).(checkpoints := s.checkpoints, evidence := EraseAt(s.evidence));
    assert EraseStory(t) == EraseStory(b[id]).(checkpoints := t.checkpoints, evidence := EraseAt(t.evidence));
    assert EraseStory(a[id]).checkpoints == EraseStory(b[id]).checkpoints;
    SameUpdate(a, b, id, s, t);
  }

  /** Replaying the event of a committed operation gives a snapshot that agrees with the live one. */
  lemma ReplayKeepsUp(live: Snapshot, rebuilt: Snapshot, op: Op, ts: string)
    requires GoalInv(live) && Agrees(live, rebuilt) && Live(live, op, ts).Commit?
    ensures var c := Live(live, op, ts);
      && ReplayPayload(rebuilt, c.payload, ts).Some?
      && Agrees(c.snapshot, ReplayPayload(rebuilt, c.payload, ts).value)
  {
    hide StoryInv, Strip, Identifier, Acyclic, DepsOf, Refresh, DepsDone, EraseAt, EraseStory, SameStories, AllComplete;
    var a, b := live.stories, rebuilt.stories;
    SameKeys(a, b);
    match op
    case LinkRun(run) => IdentifierNonEmpty(run);
    case StartStory(id) =>
      RefreshNoOp(a);
      SameMove(a, b, id, InProgress, None, a[id].nextAction);
    case Checkpoint(id, path, sha, message, at) =>
      SameCheckpoint(a, b, id, Evidence(path, sha, Strip(message), at), Evidence(path, sha, Strip(message), ts));
    case BlockStory(id, reason, next) =>
      SameMove(a, b, id, Blocked, Some(Strip(reason)), OrNone(Strip(next)));
    case ResumeStory(id) =>
      SameMove(a, b, id, InProgress, None, None);
    case CompleteStory(id) =>
      NotBlockedNoReason(a, id);
      SameMove(a, b, id, Complete, None, a[id].nextAction);
      var s, t := a[id].(status := Complete, blockReason := None), b[id].(status := Complete);
      assert s == a[id].(status := Complete, blockReason := None, nextAction := a[id].nextAction);
      assert t == b[id].(status := Complete, blockReason := None, nextAction := a[id].nextAction);
      SameRefresh(a[id := s], b[id := t]);
      SameAllComplete(Refresh(a[id := s]), Refresh(b[id := t]));
    case ImportProposal(path, sha, note) =>
    case VerifyGoal(run) =>
  }

  lemma SameKeys(a: Stories, b: Stories)
    requires SameStories(a, b)
    ensures a.Keys == b.Keys
  {}

  lemma IdentifierNonEmpty(s: string)
    requires Identifier(s)
    ensures s != ""
  {}

  /** The invariant does not look at what agreement leaves open. */
  lemma AgreesKeepsInv(live: Snapshot, rebuilt: Snapshot)
    requires Agrees(live, rebuilt) && GoalInv(live)
    ensures GoalInv(rebuilt)
  {
    hide DepsDone, Acyclic;
    var a, b := live.stories, rebuilt.stories;
    SameAllComplete(a, b);
    forall id | id in b ensures StoryInv(b, id) && a[id].status == b[id].status && a[id].dependsOn == b[id].dependsOn {
      assert StoryInv(a, id);
      assert EraseStory(a[id]) == EraseStory(b[id]);
      assert a[id].status == EraseStory(b[id]).status && a[id].dependsOn == EraseStory(b[id]).dependsOn;
      assert a[id].blockReason == EraseStory(b[id]).blockReason && a[id].checkpoints == EraseStory(b[id]).checkpoints;
      SameDoneErased(a, b, a[id], b[id]);
    }
    assert DepsOf(a) == DepsOf(b);
  }

  // ---------- what the invariant means ----------

  /**
   Started, blocked, ready and complete stories have all their dependencies complete; goals are finished exactly
   when all stories are.
   */
  lemma InvMeaning(sn: Snapshot)
    requires GoalInv(sn)
    ensures forall id, i ::
      id in sn.stories && sn.stories[id].status != Pending && 0 <= i < |sn.stories[id].dependsOn| ==>
        IsComplete(sn.stories, sn.stories[id].dependsOn[i])
    ensures sn.status == CompleteGoal || sn.status == VerifiedGoal <==>
      forall id :: id in sn.stories ==> sn.stories[id].status == Complete
    ensures (forall id :: id in sn.stories ==> sn.stories[id].status != Blocked)
      && (exists id :: id in sn.stories && sn.stories[id].status != Complete)
      ==> exists id :: id in sn.stories && (sn.stories[id].status == Ready || sn.stories[id].status == InProgress)
  {
    forall id, i | id in sn.stories && sn.stories[id].status != Pending && 0 <= i < |sn.stories[id].dependsOn|
      ensures IsComplete(sn.stories, sn.stories[id].dependsOn[i])
    {
      assert StoryInv(sn.stories, id);
    }
    if (forall id :: id in sn.stories ==> sn.stories[id].status != Blocked)
      && (exists id :: id in sn.stories && sn.stories[id].status != Complete)
    {
      var order :| Topological(order, DepsOf(sn.stories));
      var id :| id in sn.stories && sn.stories[id].status != Complete;
      assert id in Elems(order);
      var n := FirstUnfinished(sn.stories, order, 0);
      assert sn.stories[order[n]].status == Ready || sn.stories[order[n]].status == InProgress;
    }
  }

  /** The first unfinished story of a topological order is not waiting. */
  lemma {:induction false} FirstUnfinished(stories: Stories, order: seq<string>, i: nat) returns (n: nat)
    requires StoriesInv(stories) && Ordered(order, DepsOf(stories)) && i <= |order|
    requires forall j :: 0 <= j < i ==> IsComplete(stories, order[j])
    requires exists j :: 0 <= j < |order| && !IsComplete(stories, order[j])
    ensures n < |order| && order[n] in stories && stories[order[n]].status != Complete
    ensures stories[order[n]].status != Pending
    decreases |order| - i
  {
    if IsComplete(stories, order[i]) {
      n := FirstUnfinished(stories, order, i + 1);
    } else {
      n := i;
      assert order[i] in DepsOf(stories);
      var s := stories[order[i]];
      forall k | 0 <= k < |s.dependsOn| ensures IsComplete(stories, s.dependsOn[k]) {
        assert s.dependsOn[k] in DepsOf(stories)[order[i]];
        assert s.dependsOn[k] in Elems(order[..i]);
      }
      assert StoryInv(stories, order[i]);
    }
  }

  /** No operation takes a complete story back. */
  lemma CompleteStays(sn: Snapshot, op: Op, ts: string, id: string)
    requires GoalInv(sn) && Live(sn, op, ts).Commit? && IsComplete(sn.stories, id)
    ensures IsComplete(Live(sn, op, ts).snapshot.stories, id)
  {
    hide StoryInv, Strip, Identifier, Acyclic, DepsOf, DepsDone;
    if op.StartStory? { RefreshNoOp(sn.stories); }
  }

  // ---------- the first snapshot ----------

  /** A stored story of a new goal: ready exactly when it depends on nothing. */
  lemma NewStory(raws: seq<RawStory>, id: string)
    requires ValidStories(raws) && id in ById(StoredAll(raws))
    ensures StoryInv(ById(StoredAll(raws)), id) && ById(StoredAll(raws))[id].status != Complete
  {
    hide Acyclic, Strip, Identifier, Ids, Distinct, RawOk, ById;
    var list := StoredAll(raws);
    var stories := ById(list);
    var i :| 0 <= i < |list| && list[i] == stories[id];
    var s := Stored(raws[i]);
    assert s == stories[id];
    assert DepsOf(stories)[id] <= DepsOf(stories).Keys;
    if |s.dependsOn| > 0 {
      NotYetDone(list, stories, s.dependsOn[0]);
    }
  }

  /** A goal made of a valid list of stories starts out in the invariant. */
  lemma CreatedInv(goalId: string, e: Event, raws: seq<RawStory>)
    requires ValidStories(raws) && e.body.payload.GoalCreated? && e.body.payload.stories == StoredAll(raws)
    ensures GoalInv(Created(goalId, e))
  {
    hide Acyclic, Strip, Identifier, StoryInv, Stored, KnownDeps, Distinct, RawOk;
    var list := StoredAll(raws);
    var stories := ById(list);
    forall id | id in stories ensures StoryInv(stories, id) && stories[id].status != Complete {
      NewStory(raws, id);
    }
    assert Ids(list)[0] in Elems(Ids(list));
    assert list[0].id in stories;
  }

  lemma NotYetDone(list: seq<Story>, stories: Stories, id: string)
    requires stories == ById(list) && forall i :: 0 <= i < |list| ==> list[i].status != Complete
    ensures !IsComplete(stories, id)
  {
    if id in stories { assert stories[id] in list; }
  }
}
