/** From any valid list of stories: working through them in any order of their dependencies verifies the goal. */
module GoalWork {
  import opened Text
  import opened Options
  import opened StoryGraph
  import opened GoalLedger
  import opened GoalModel
  import opened GoalReplay
  import opened GoalRuns
  import opened GoalTheorems
  import opened GoalExamples
  import opened GoalAcceptance

  /** What is handed in with every checkpoint. */
  datatype Note = Note(path: string, sha: string, message: string, at: string)

  /** Start, one checkpoint and complete, for one story after the other. */
  function WorkSteps(order: seq<string>, note: Note, ts: string): seq<Step> {
    if |order| == 0 then []
    else
      [Do(StartStory(order[0]), ts, ""),
       Do(Checkpoint(order[0], note.path, note.sha, note.message, note.at), ts, ""),
       Do(CompleteStory(order[0]), ts, "")] + WorkSteps(order[1..], note, ts)
  }

  /** Steps from any state on. */
  predicate Walk(h: Hash, states: seq<State>, steps: seq<Step>) {
    |states| == |steps| + 1 && forall i :: 0 <= i < |steps| ==> StepOk(h, states[i], steps[i], states[i + 1])
  }

  lemma WalkOn(h: Hash, a: seq<State>, first: seq<Step>, b: seq<State>, second: seq<Step>)
    requires Walk(h, a, first) && Walk(h, b, second) && a[|a| - 1] == b[0]
    ensures Walk(h, a + b[1..], first + second)
    ensures (a + b[1..])[|a + b[1..]| - 1] == b[|b| - 1]
  {
    hide StepOk;
    var states, steps := a + b[1..], first + second;
    forall i | 0 <= i < |steps| ensures StepOk(h, states[i], steps[i], states[i + 1]) {
      if i < |first| {
        assert states[i] == a[i] && states[i + 1] == a[i + 1];
      } else {
        assert states[i] == b[i - |first|] && states[i + 1] == b[i - |first| + 1];
      }
    }
  }

  /** A goal that loads and can be worked on. */
  ghost predicate Open(h: Hash, s: State) {
    Load(h, s).Some? && |Load(h, s).value| > 0 && s.file.terminated && GoalInv(s.snapshot)
  }

  /** One accepted operation. */
  lemma Accepted(h: Hash, s: State, op: Op, ts: string) returns (t: State)
    requires Open(h, s) && Live(s.snapshot, op, ts).Commit?
    ensures Open(h, t) && StepOk(h, s, Do(op, ts, ""), t)
    ensures var sn := Live(s.snapshot, op, ts).snapshot;
      && t.snapshot.stories == sn.stories && t.snapshot.status == sn.status && t.snapshot.linkedRuns == sn.linkedRuns
      && t.snapshot.verified == sn.verified
  {
    hide Live, Load, DoOp, GoalInv;
    var e;
    t, e := DoLoads(h, s, Load(h, s).value, op, ts, "");
    LiveKeepsInv(s.snapshot, op, ts);
    TailKeepsInv(Live(s.snapshot, op, ts).snapshot, e);
  }

  /** Some stories are complete; the others have not been started. */
  predicate Done(stories: Stories, done: set<string>) {
    && done <= stories.Keys
    && forall id :: id in stories ==>
         if id in done then stories[id].status == Complete else stories[id].status in {Pending, Ready}
  }

  /** The same, with one story in progress. */
  predicate Underway(stories: Stories, done: set<string>, id: string, checkpoints: nat) {
    && done <= stories.Keys && id in stories && id !in done
    && stories[id].status == InProgress && stories[id].checkpoints >= checkpoints
    && forall x :: x in stories && x != id ==>
         if x in done then stories[x].status == Complete else stories[x].status in {Pending, Ready}
  }

  predicate SameDeps(a: Stories, b: Stories) {
    a.Keys == b.Keys && forall id :: id in a ==> b[id].dependsOn == a[id].dependsOn
  }

  /** Nothing but stories changes on the way. */
  predicate SameRest(s: State, t: State) {
    && t.snapshot.linkedRuns == s.snapshot.linkedRuns && t.snapshot.verified == s.snapshot.verified
    && SameDeps(s.snapshot.stories, t.snapshot.stories)
  }

  lemma Started(h: Hash, s: State, id: string, done: set<string>, ts: string) returns (t: State)
    requires Open(h, s) && Done(s.snapshot.stories, done) && id in s.snapshot.stories && id !in done
    requires forall i :: 0 <= i < |s.snapshot.stories[id].dependsOn| ==> s.snapshot.stories[id].dependsOn[i] in done
    ensures Open(h, t) && StepOk(h, s, Do(StartStory(id), ts, ""), t)
    ensures Underway(t.snapshot.stories, done, id, 0) && SameRest(s, t)
  {
    hide Live, Load, StepOk, StatusInv, Acyclic;
    IsReady(s.snapshot.stories, id, done);
    hide StoriesInv;
    StartExactly(s.snapshot, id, ts);
    t := Accepted(h, s, StartStory(id), ts);
  }

  lemma Noted(h: Hash, s: State, id: string, done: set<string>, note: Note, ts: string) returns (t: State)
    requires Open(h, s) && Underway(s.snapshot.stories, done, id, 0) && HasInk(note.message)
    ensures Open(h, t)
    ensures StepOk(h, s, Do(Checkpoint(id, note.path, note.sha, note.message, note.at), ts, ""), t)
    ensures Underway(t.snapshot.stories, done, id, 1) && SameRest(s, t)
  {
    hide Live, Load, StepOk, GoalInv, HasInk;
    CheckpointExactly(s.snapshot, id, note.path, note.sha, note.message, note.at, ts);
    t := Accepted(h, s, Checkpoint(id, note.path, note.sha, note.message, note.at), ts);
  }

  lemma Finished(h: Hash, s: State, id: string, done: set<string>, ts: string) returns (t: State)
    requires Open(h, s) && Underway(s.snapshot.stories, done, id, 1)
    ensures Open(h, t) && StepOk(h, s, Do(CompleteStory(id), ts, ""), t)
    ensures Done(t.snapshot.stories, done + {id}) && SameRest(s, t)
  {
    hide Live, Load, StepOk, GoalInv, AllIn;
    CompleteExactly(s.snapshot, id, ts);
    t := Accepted(h, s, CompleteStory(id), ts);
  }

  /** One story, all it depends on being done. */
  lemma WorkOne(h: Hash, s: State, id: string, done: set<string>, note: Note, ts: string)
    returns (states: seq<State>)
    requires Open(h, s) && Done(s.snapshot.stories, done) && id in s.snapshot.stories && id !in done
    requires forall i :: 0 <= i < |s.snapshot.stories[id].dependsOn| ==> s.snapshot.stories[id].dependsOn[i] in done
    requires HasInk(note.message)
    ensures Walk(h, states, WorkSteps([id], note, ts)) && |states| > 0 && states[0] == s
    ensures var t := states[|states| - 1]; Open(h, t) && Done(t.snapshot.stories, done + {id}) && SameRest(s, t)
  {
    hide Open, HasInk, Done, Underway, StepOk;
    var a := Started(h, s, id, done, ts);
    var b := Noted(h, a, id, done, note, ts);
    var t := Finished(h, b, id, done, ts);
    assert [id][1..] == [];
    states := [s, a, b, t];
  }

  lemma IsReady(stories: Stories, id: string, done: set<string>)
    requires StoriesInv(stories) && Done(stories, done) && id in stories && id !in done
    requires forall i :: 0 <= i < |stories[id].dependsOn| ==> stories[id].dependsOn[i] in done
    ensures stories[id].status == Ready
  {
    assert StoryInv(stories, id);
  }

  /** All stories in turn. */
  lemma {:induction false} WorkAll(h: Hash, s: State, order: seq<string>, k: nat, note: Note, ts: string)
    returns (states: seq<State>)
    requires Open(h, s) && k <= |order| && Topological(order, DepsOf(s.snapshot.stories))
    requires Done(s.snapshot.stories, Elems(order[..k])) && HasInk(note.message)
    ensures Walk(h, states, WorkSteps(order[k..], note, ts)) && |states| > 0 && states[0] == s
    ensures var t := states[|states| - 1];
      Open(h, t) && Done(t.snapshot.stories, Elems(order)) && SameRest(s, t)
    decreases |order| - k
  {
    hide Open, HasInk, Done, WorkSteps, Topological, DepsOf, Walk, Elems;
    if k == |order| {
      states := [s];
      assert order[..k] == order && order[k..] == [];
      NoWork(h, s, note, ts);
    } else {
      var id := order[k];
      NextInOrder(s.snapshot.stories, order, k);
      var first := WorkOne(h, s, id, Elems(order[..k]), note, ts);
      var t := first[|first| - 1];
      assert order[..k + 1] == order[..k] + [id];
      ElemsAppend(order[..k], id);
      SameOrder(s.snapshot.stories, t.snapshot.stories, order);
      var rest := WorkAll(h, t, order, k + 1, note, ts);
      WalkOn(h, first, WorkSteps([id], note, ts), rest, WorkSteps(order[k + 1..], note, ts));
      states := first + rest[1..];
      FirstOfAll(order, k, note, ts);
    }
  }

  lemma NoWork(h: Hash, s: State, note: Note, ts: string)
    ensures Walk(h, [s], WorkSteps([], note, ts))
  {}

  lemma SameOrder(a: Stories, b: Stories, order: seq<string>)
    requires SameDeps(a, b)
    ensures DepsOf(a) == DepsOf(b)
  {}

  lemma FirstOfAll(order: seq<string>, k: nat, note: Note, ts: string)
    requires k < |order|
    ensures WorkSteps(order[k..], note, ts) == WorkSteps([order[k]], note, ts) + WorkSteps(order[k + 1..], note, ts)
  {
    assert order[k..][1..] == order[k + 1..] && [order[k]][1..] == [];
  }

  /** Its dependencies come before it, and it comes once. */
  lemma NextInOrder(stories: Stories, order: seq<string>, k: nat)
    requires Topological(order, DepsOf(stories)) && k < |order|
    ensures order[k] in stories && order[k] !in Elems(order[..k])
    ensures forall i :: 0 <= i < |stories[order[k]].dependsOn| ==> stories[order[k]].dependsOn[i] in Elems(order[..k])
  {
    assert order[k] in DepsOf(stories);
    assert DepsOf(stories)[order[k]] <= Elems(order[..k]);
    forall i | 0 <= i < |stories[order[k]].dependsOn|
      ensures stories[order[k]].dependsOn[i] in Elems(order[..k])
    {
      assert stories[order[k]].dependsOn[i] in DepsOf(stories)[order[k]];
    }
  }

  // ---------- from the beginning ----------

  /** A goal made of a valid list of stories is open, with none of them started. */
  lemma BeginsOpen(h: Hash, goalId: string, raws: seq<RawStory>, title: string, objective: string, ts: string)
    requires ValidStories(raws)
    ensures var s := Init(h, goalId, StoredAll(raws), title, objective, None, None, ts, "");
      && IsInit(h, goalId, s) && Open(h, s) && Done(s.snapshot.stories, {}) && s.snapshot.linkedRuns == []
      && s.snapshot.stories == ById(StoredAll(raws)) && !s.snapshot.verified
  {
    hide ScanLedger, GoalInv, Strip, StoredAll, ValidStories, ById;
    var s := Init(h, goalId, StoredAll(raws), title, objective, None, None, ts, "");
    var e := s.file.lines[0].event;
    NextEventLinks(h, [], goalId, ts, "", e.body.payload);
    assert [] + [e] == [e];
    assert s.file.lines == Lines([e]);
    ScanExactly(h, s.file.lines, [e]);
    CreatedInv(goalId, e, raws);
    InvOfTitle(Created(goalId, e), s.snapshot);
    NoneStarted(raws);
  }

  lemma NoneStarted(raws: seq<RawStory>)
    requires ValidStories(raws)
    ensures Done(ById(StoredAll(raws)), {})
  {
    hide ValidStories, Strip, Elems, Distinct;
    var list := StoredAll(raws);
    forall id | id in ById(list) ensures ById(list)[id].status in {Pending, Ready} {
      var i :| 0 <= i < |list| && list[i] == ById(list)[id];
      assert list[i] == Stored(raws[i]);
    }
  }

  /**
   From any valid list of stories, in any order of their dependencies: starting each, one checkpoint and
   completing it, then linking a run and verifying by it, is a run on which every step is accepted,
   and it ends with the goal verified.
   */
  lemma WorkVerifies(h: Hash, goalId: string, raws: seq<RawStory>, title: string, objective: string,
                     order: seq<string>, note: Note, run: string, ts: string)
    returns (states: seq<State>, steps: seq<Step>)
    requires ValidStories(raws) && Topological(order, DepsOf(ById(StoredAll(raws))))
    requires HasInk(note.message) && Identifier(run)
    ensures Run(h, goalId, states, steps)
    ensures states[0] == Init(h, goalId, StoredAll(raws), title, objective, None, None, ts, "")
    ensures steps == WorkSteps(order, note, ts) + [Do(LinkRun(run), ts, ""), Do(VerifyGoal(run), ts, "")]
    ensures var t := states[|steps|];
      && Load(h, t).Some? && t.snapshot.status == VerifiedGoal && t.snapshot.verified
      && t.snapshot.linkedRuns == [run] && (forall id :: id in t.snapshot.stories ==>
           t.snapshot.stories[id].status == Complete)
  {
    hide Init, Live, ValidStories, StoredAll, HasInk, Identifier, WorkSteps, Open, IsInit, ById, StepOk, Load, Done;
    hide Topological;
    BeginsOpen(h, goalId, raws, title, objective, ts);
    var s := Init(h, goalId, StoredAll(raws), title, objective, None, None, ts, "");
    assert order[..0] == [] && order[0..] == order && Elems([]) == {};
    var worked := WorkAll(h, s, order, 0, note, ts);
    var t := worked[|worked| - 1];
    OrderKeys(order, s.snapshot.stories);
    var u, v := LinkAndVerify(h, t, run, ts);
    var last := [Do(LinkRun(run), ts, ""), Do(VerifyGoal(run), ts, "")];
    WalkOn(h, worked, WorkSteps(order, note, ts), [t, u, v], last);
    states, steps := worked + [t, u, v][1..], WorkSteps(order, note, ts) + last;
    RunOf(h, goalId, states, steps);
    OpenLoads(h, v);
    AllDone(v.snapshot.stories);
  }

  lemma OrderKeys(order: seq<string>, stories: Stories)
    requires Topological(order, DepsOf(stories))
    ensures Elems(order) == stories.Keys
  {}

  lemma AllDone(stories: Stories)
    requires Done(stories, stories.Keys)
    ensures forall id :: id in stories ==> stories[id].status == Complete
  {}

  lemma OpenLoads(h: Hash, s: State)
    requires Open(h, s)
    ensures Load(h, s).Some?
  {
    hide Load, GoalInv;
  }

  lemma LinkAndVerify(h: Hash, s: State, run: string, ts: string) returns (t: State, u: State)
    requires Open(h, s) && Identifier(run) && s.snapshot.linkedRuns == [] && !s.snapshot.verified
    requires Done(s.snapshot.stories, s.snapshot.stories.Keys)
    ensures Walk(h, [s, t, u], [Do(LinkRun(run), ts, ""), Do(VerifyGoal(run), ts, "")]) && Open(h, u)
    ensures u.snapshot.status == VerifiedGoal && u.snapshot.verified && u.snapshot.linkedRuns == [run]
    ensures u.snapshot.stories == s.snapshot.stories
  {
    hide Live, Identifier, StoryInv, Load, Acyclic, StepOk, AllComplete;
    LinkExactly(s.snapshot, run, ts);
    t := Accepted(h, s, LinkRun(run), ts);
    VerifyExactly(t.snapshot, run, ts);
    u := Accepted(h, t, VerifyGoal(run), ts);
  }
}
