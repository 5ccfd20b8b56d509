/** A run on which a confirmed repair loses the goal: the failing half of the repair theorem is reached. */
module GoalExamples {
  import opened Text
  import opened Options
  import opened StoryGraph
  import opened GoalLedger
  import opened GoalModel
  import opened GoalReplay
  import opened GoalRuns
  import opened GoalTheorems
  import opened GoalHash

  const ONE_STORY := [RawStory("s", None, [], "x")]

  lemma OneStoryIsValid()
    ensures ValidStories(ONE_STORY)
    ensures var stories := ById(StoredAll(ONE_STORY));
      "s" in stories && stories["s"].status == Ready && stories["s"].dependsOn == []
  {
    hide Strip;
    StripLetters();
    var list := StoredAll(ONE_STORY);
    assert Ids(list) == ["s"];
    var stories := ById(list);
    assert "s" in Elems(Ids(list)) by { assert Ids(list)[0] == "s"; }
    assert Distinct(Ids(list));
    assert stories[list[0].id] == list[0];
    assert Elems(["s"]) == {"s"};
    assert Elems([]) == {};
    var deps := DepsOf(stories);
    assert deps.Keys == {"s"} && deps["s"] == {};
    assert Topological(["s"], deps);
  }

  lemma StripLetters()
    ensures Strip("s") == "s" && Strip("x") == "x"
  {}

  /** A committed operation on a goal that loads, its file ending in a newline. */
  lemma DoLoads(h: Hash, s: State, events: seq<Event>, op: Op, ts: string, invocation: string)
    returns (t: State, e: Event)
    requires Load(h, s) == Some(events) && |events| > 0 && s.file.terminated && Live(s.snapshot, op, ts).Commit?
    ensures t == DoOp(h, s, op, ts, invocation) && Load(h, t) == Some(events + [e]) && t.file.terminated
    ensures e.body.payload == Live(s.snapshot, op, ts).payload
    ensures t.snapshot == Saved(Live(s.snapshot, op, ts).snapshot, e)
    ensures t.backups == s.backups
  {
    hide Live, ScanLedger, Chain, MatchesTail;
    t := DoOp(h, s, op, ts, invocation);
    var c := Live(s.snapshot, op, ts);
    e := NextEvent(h, events, c.snapshot.goalId, ts, invocation, c.payload);
    ScanExactly(h, s.file.lines, events);
    NextEventLinks(h, events, c.snapshot.goalId, ts, invocation, c.payload);
    AppendLoads(h, s, events, c.snapshot, e);
  }

  lemma InitLoads(h: Hash, goalId: string, ts: string) returns (s: State, e: Event)
    ensures s == Init(h, goalId, StoredAll(ONE_STORY), "", "", None, None, ts, "") && IsInit(h, goalId, s)
    ensures Load(h, s) == Some([e]) && s.file.terminated && s.backups == [] && e.body.payload.GoalCreated?
    ensures s.snapshot.stories == ById(StoredAll(ONE_STORY)) && s.snapshot.status == Active
  {
    hide ScanLedger, Strip, ValidStories, StoredAll;
    OneStoryIsValid();
    s := Init(h, goalId, StoredAll(ONE_STORY), "", "", None, None, ts, "");
    e := s.file.lines[0].event;
    NextEventLinks(h, [], goalId, ts, "", e.body.payload);
    assert [] + [e] == [e];
    assert s.file.lines == Lines([e]);
    ScanExactly(h, s.file.lines, [e]);
  }

  /** The story is started and a checkpoint recorded. */
  lemma StartAndCheckpoint(h: Hash, s: State, e: Event, ts: string) returns (t: State, u: State, a: Event, b: Event)
    requires Load(h, s) == Some([e]) && s.file.terminated
    requires s.snapshot.stories == ById(StoredAll(ONE_STORY)) && s.snapshot.status == Active
    ensures t == DoOp(h, s, StartStory("s"), ts, "") && u == DoOp(h, t, Checkpoint("s", "p", "0", "x", ts), ts, "")
    ensures Load(h, u) == Some([e, a, b]) && b.body.payload.Checkpointed? && u.file.terminated && u.backups == s.backups
  {
    hide Load, DoOp, ScanLedger, StoredAll, ValidStories, Acyclic, Strip;
    OneStoryIsValid();
    StripLetters();
    assert Refresh(s.snapshot.stories)["s"].status == Ready;
    t, a := DoLoads(h, s, [e], StartStory("s"), ts, "");
    assert [e] + [a] == [e, a];
    u, b := DoLoads(h, t, [e, a], Checkpoint("s", "p", "0", "x", ts), ts, "");
    assert [e, a] + [b] == [e, a, b];
  }

  /**
   A goal is created, its story started and checkpointed, an append is torn, and the repair confirmed:
   the ledger that is left no longer loads.  This is so for every injective hash.
   */
  lemma CheckpointedGoalIsLost(h: Hash, goalId: string, ts: string) returns (states: seq<State>, steps: seq<Step>)
    requires Injective(h) && goalId != ""
    ensures Run(h, goalId, states, steps) && |steps| == 4 && steps[2].TornAppend? && steps[3] == Repair(true, ts, "")
    ensures Load(h, states[2]).Some?
    ensures ScanLedger(h, states[3].file.lines).Damaged? && HasCheckpoint(ScanLedger(h, states[3].file.lines).prefix)
    ensures Load(h, states[4]).None? && states[4].backups == [states[3].file]
  {
    hide Init, Load, DoOp, ScanLedger, StoredAll, ValidStories, RepairGoal, Injective;
    var s, e := InitLoads(h, goalId, ts);
    var t, u, a, b := StartAndCheckpoint(h, s, e, ts);
    var events := [e, a, b];
    assert u.file.lines == Lines(events) && Chain(h, events) by { LoadLines(h, u, events); }
    var torn := u.(file := File(u.file.lines + [NotJson], false));
    ScanExactly(h, torn.file.lines, events);
    assert events[2].body.payload.Checkpointed?;
    var start, mark := Do(StartStory("s"), ts, ""), Do(Checkpoint("s", "p", "0", "x", ts), ts, "");
    RunOf(h, goalId, [s, t, u, torn], [start, mark, TornAppend(NotJson)]);
    RepairWorksIffNoCheckpoint(h, goalId, [s, t, u, torn], [start, mark, TornAppend(NotJson)], 3, ts, "");
    var repaired := RepairGoal(h, torn, true, ts, "").0;
    states, steps := [s, t, u, torn, repaired], [start, mark, TornAppend(NotJson), Repair(true, ts, "")];
  }

  lemma LoadLines(h: Hash, s: State, events: seq<Event>)
    requires Load(h, s) == Some(events)
    ensures s.file.lines == Lines(events) && Chain(h, events)
  {
    hide ScanLedger;
    ScanExactly(h, s.file.lines, events);
  }

  lemma RunOf(h: Hash, goalId: string, states: seq<State>, steps: seq<Step>)
    requires |states| == |steps| + 1 && IsInit(h, goalId, states[0])
      && forall i :: 0 <= i < |steps| ==> StepOk(h, states[i], steps[i], states[i + 1])
    ensures Run(h, goalId, states, steps)
  {
    hide IsInit, StepOk;
  }

  /** The same with a hash in hand. */
  lemma SomeGoalIsLost() returns (states: seq<State>, steps: seq<Step>)
    ensures Run(Spelled, "g", states, steps) && |steps| == 4 && steps[3] == Repair(true, "t", "")
    ensures Load(Spelled, states[2]).Some? && Load(Spelled, states[4]).None?
  {
    hide Injective, Run, Load;
    InjectiveHashExists();
    states, steps := CheckpointedGoalIsLost(Spelled, "g", "t");
  }
}
