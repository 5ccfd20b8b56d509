/**
 The goal operations of omg_cli/goals.py on a store with two files, step by step as the code takes
 them.  Each method is proved to make exactly the step the runs of GoalRuns are made of.
 */
module GoalCode {
  import opened Text
  import opened Options
  import opened StoryGraph
  import opened GoalLedger
  import opened GoalModel
  import opened GoalRuns

  class GoalStore {
    const h: Hash
    var file: File
    var snapshot: Snapshot
    var backups: seq<File>

    ghost function Abs(): State
      reads this
    {
      State(file, snapshot, backups)
    }

    constructor (h: Hash, file: File, snapshot: Snapshot)
      ensures this.h == h && Abs() == State(file, snapshot, [])
    {
      this.h, this.file, this.snapshot, this.backups := h, file, snapshot, [];
    }

    /** `_load_consistent` */
    method LoadConsistent() returns (r: Option<seq<Event>>)
      ensures r == Load(h, Abs())
    {
      hide ScanLedger;
      var scan := ScanLedgerCode(h, file.lines);
      if !scan.Valid? { return None; }
      if !MatchesTail(snapshot, scan.events) { return None; }
      r := Some(scan.events);
    }

    /**
     `_append_event_and_snapshot`: first the ledger line, then the snapshot.  A goal that loads goes on
     loading, with one event more, exactly when its file ended in a newline.
     */
    method AppendEventAndSnapshot(sn: Snapshot, e: Event)
      modifies this
      ensures var before := old(Load(h, Abs()));
        before.Some? && Chain(h, before.value + [e]) ==>
          Load(h, Abs()) == if old(file).terminated || |before.value| == 0 then Some(before.value + [e]) else None
      ensures Abs() == old(Abs()).(file := AppendLine(old(file), e), snapshot := Saved(sn, e))
    {
      hide Load, Chain, AppendLine;
      ghost var before := Load(h, Abs());
      if before.Some? && Chain(h, before.value + [e]) { AppendLoads(h, Abs(), before.value, sn, e); }
      file := AppendLine(file, e);
      snapshot := sn.(tailSequence := e.body.sequence, tailHash := e.hash, updatedAt := e.body.ts,
                      revision := sn.revision + 1);
    }

    method StartStoryCode(id: string, ids: seq<string>, ts: string, invocation: string) returns (ok: bool)
      requires Distinct(ids) && Elems(ids) == snapshot.stories.Keys
      modifies this
      ensures Abs() == DoOp(h, old(Abs()), StartStory(id), ts, invocation)
      ensures ok ==> old(Load(h, Abs())).Some?
    {
      hide Refresh, Saved, AppendLine, Load;
      var events := LoadConsistent();
      if events.None? || |events.value| == 0 || snapshot.status == ForensicGoal { return false; }
      var stories := RefreshCode(ids, snapshot.stories);
      if id !in stories { return false; }
      var story := stories[id];
      if story.status == Blocked || story.status != Ready { return false; }
      story := story.(status := InProgress, blockReason := None);
      var e := NextEvent(h, events.value, snapshot.goalId, ts, invocation, StoryStarted(id));
      AppendEventAndSnapshot(snapshot.(stories := stories[id := story]), e);
      ok := true;
    }

    method CheckpointCode(id: string, path: string, sha: string, message: string, at: string, ts: string,
                          invocation: string) returns (ok: bool)
      modifies this
      ensures Abs() == DoOp(h, old(Abs()), Checkpoint(id, path, sha, message, at), ts, invocation)
      ensures ok ==> old(Load(h, Abs())).Some?
    {
      hide Strip, Saved, AppendLine, Load;
      var text := Strip(message);
      var events := LoadConsistent();
      if text == "" || events.None? || |events.value| == 0 || id !in snapshot.stories { return false; }
      var story := snapshot.stories[id];
      if story.status != InProgress { return false; }
      story := story.(checkpoints := story.checkpoints + 1);
      story := story.(evidence := story.evidence + [Evidence(path, sha, text, at)]);
      var e := NextEvent(h, events.value, snapshot.goalId, ts, invocation, Checkpointed(id, text, path, sha));
      AppendEventAndSnapshot(snapshot.(stories := snapshot.stories[id := story]), e);
      ok := true;
    }

    method BlockStoryCode(id: string, reason: string, nextAction: string, ts: string, invocation: string)
      returns (ok: bool)
      modifies this
      ensures Abs() == DoOp(h, old(Abs()), BlockStory(id, reason, nextAction), ts, invocation)
      ensures ok ==> old(Load(h, Abs())).Some?
    {
      hide Strip, Saved, AppendLine, Load;
      var text := Strip(reason);
      var events := LoadConsistent();
      if text == "" || events.None? || |events.value| == 0 || id !in snapshot.stories { return false; }
      var story := snapshot.stories[id];
      if story.status != InProgress && story.status != Ready { return false; }
      story := story.(status := Blocked, blockReason := Some(text), nextAction := OrNone(Strip(nextAction)));
      var sn := snapshot.(stories := snapshot.stories[id := story], status := BlockedGoal,
                          blocker := StoryBlocker(id, text, story.nextAction));
      var e := NextEvent(h, events.value, snapshot.goalId, ts, invocation, StoryBlocked(id, text, story.nextAction));
      AppendEventAndSnapshot(sn, e);
      ok := true;
    }

    method ResumeStoryCode(id: string, ts: string, invocation: string) returns (ok: bool)
      modifies this
      ensures Abs() == DoOp(h, old(Abs()), ResumeStory(id), ts, invocation)
      ensures ok ==> old(Load(h, Abs())).Some?
    {
      hide Saved, AppendLine, Load;
      var events := LoadConsistent();
      if events.None? || |events.value| == 0 || id !in snapshot.stories { return false; }
      var story := snapshot.stories[id];
      if story.status != Blocked { return false; }
      story := story.(status := InProgress, blockReason := None, nextAction := None);
      var sn := snapshot.(stories := snapshot.stories[id := story]);
      if snapshot.blocker == NoBlocker { return false; }
      if snapshot.blocker.StoryBlocker? && snapshot.blocker.id == id {
        sn := sn.(blocker := NoBlocker, status := Active);
      }
      var e := NextEvent(h, events.value, snapshot.goalId, ts, invocation, StoryResumed(id));
      AppendEventAndSnapshot(sn, e);
      ok := true;
    }

    method CompleteStoryCode(id: string, ids: seq<string>, ts: string, invocation: string) returns (ok: bool)
      requires Distinct(ids) && Elems(ids) == snapshot.stories.Keys
      modifies this
      ensures Abs() == DoOp(h, old(Abs()), CompleteStory(id), ts, invocation)
      ensures ok ==> old(Load(h, Abs())).Some?
    {
      hide Refresh, Saved, AppendLine, Load;
      var events := LoadConsistent();
      if events.None? || |events.value| == 0 || id !in snapshot.stories { return false; }
      var story := snapshot.stories[id];
      if story.status != InProgress || story.checkpoints < 1 { return false; }
      story := story.(status := Complete, blockReason := None);
      var updated := snapshot.stories[id := story];
      assert updated.Keys == snapshot.stories.Keys;
      var stories := RefreshCode(ids, updated);
      var sn := snapshot.(stories := stories);
      if AllComplete(stories) {
        sn := sn.(status := CompleteGoal);
      } else if sn.status == BlockedGoal && sn.blocker == NoBlocker {
        sn := sn.(status := Active);
      }
      var e := NextEvent(h, events.value, snapshot.goalId, ts, invocation, StoryCompleted(id));
      AppendEventAndSnapshot(sn, e);
      ok := true;
    }

    /** `link_run`, for a run that exists. */
    method LinkRunCode(run: string, ts: string, invocation: string) returns (ok: bool)
      modifies this
      ensures Abs() == DoOp(h, old(Abs()), LinkRun(run), ts, invocation)
      ensures ok ==> old(Load(h, Abs())).Some? && run in snapshot.linkedRuns
    {
      hide Saved, AppendLine, Load, Identifier;
      if !Identifier(run) { return false; }
      var events := LoadConsistent();
      if events.None? { return false; }
      if run in snapshot.linkedRuns { return true; }
      var e := NextEvent(h, events.value, snapshot.goalId, ts, invocation, RunLinked(run));
      var sn := snapshot.(linkedRuns := snapshot.linkedRuns + [run]);
      AppendEventAndSnapshot(sn, e);
      SavedRuns(sn, e);
      ok := true;
    }

    /** `verify_goal`: the first candidate with an accepted result verifies the goal. */
    method VerifyGoalCode(runId: Option<string>, stamped: set<string>, ts: string, invocation: string)
      returns (ok: bool)
      modifies this
      ensures var run := FirstStamped(if runId.Some? then [runId.value] else old(snapshot.linkedRuns),
                                      old(snapshot.linkedRuns), stamped);
        Abs() == if run.Some? then DoOp(h, old(Abs()), VerifyGoal(run.value), ts, invocation) else old(Abs())
      ensures ok ==> old(Load(h, Abs())).Some? && snapshot.verified
    {
      hide Saved, AppendLine, Load;
      var events := LoadConsistent();
      if events.None? || |events.value| == 0 { return false; }
      if snapshot.verified { return true; }
      if snapshot.status != CompleteGoal { return false; }
      var linked := snapshot.linkedRuns;
      var candidates := if runId.Some? then [runId.value] else linked;
      var i := 0;
      while i < |candidates|
        invariant 0 <= i <= |candidates|
        invariant FirstStamped(candidates[i..], linked, stamped) == FirstStamped(candidates, linked, stamped)
      {
        var run := candidates[i];
        if run !in linked { return false; }
        if run in stamped {
          var e := NextEvent(h, events.value, snapshot.goalId, ts, invocation, GoalVerified(run));
          var sn := snapshot.(verified := true, status := VerifiedGoal, verifiedRun := Some(run),
                              verifiedAt := Some(ts));
          AppendEventAndSnapshot(sn, e);
          SavedRuns(sn, e);
          return true;
        }
        i := i + 1;
      }
      ok := false;
    }

    /** `repair_goal`: backup, rebuild, write back, append the repair event. */
    method RepairCode(confirmed: bool, ts: string, invocation: string) returns (action: Action)
      modifies this
      ensures Abs() == RepairGoal(h, old(Abs()), confirmed, ts, invocation).0
      ensures action == RepairGoal(h, old(Abs()), confirmed, ts, invocation).1
    {
      hide ScanLedger, Rebuild, AliasStories;
      var scan := ScanLedgerCode(h, file.lines);
      if scan.Valid? && MatchesTail(snapshot, scan.events) { return AlreadyHealthy; }
      if !confirmed { return DryRun; }
      if !scan.Damaged? {
        snapshot := snapshot.(status := ForensicGoal, blocker := ForensicBlocker, updatedAt := ts);
        return MarkedForensic;
      }
      backups := backups + [file];
      var prefix, goalId := scan.prefix, snapshot.goalId;
      var written: seq<Event>, rebuilt := [], Emptied(goalId, ts);
      if |prefix| > 0 {
        var sn := RebuildCode(goalId, prefix);
        if sn.None? { return RebuildRaised; }
        RebuildFirst(goalId, prefix);
        rebuilt := sn.value;
        var list := SharedEvidence(goalId, prefix, rebuilt);
        var first := prefix[0];
        written := [first.(body := first.body.(payload := first.body.payload.(stories := list)))] + prefix[1..];
      }
      file := File(Lines(written), true);
      var e := NextEvent(h, prefix, goalId, ts, invocation, LedgerRepaired("", |prefix|, TailHash(prefix)));
      AppendEventAndSnapshot(rebuilt, e);
      assert Lines(written + [e]) == Lines(written) + [EventLine(e)];
      action := Repaired;
    }
  }

  /** The run the candidate loop settles on; a candidate that is not linked ends it. */
  function FirstStamped(candidates: seq<string>, linked: seq<string>, stamped: set<string>): (r: Option<string>)
    ensures r.Some? ==> r.value in candidates && r.value in linked && r.value in stamped
  {
    if |candidates| == 0 || candidates[0] !in linked then None
    else if candidates[0] in stamped then Some(candidates[0])
    else FirstStamped(candidates[1..], linked, stamped)
  }

  lemma SavedRuns(sn: Snapshot, e: Event)
    ensures Saved(sn, e).linkedRuns == sn.linkedRuns && Saved(sn, e).verified == sn.verified
  {}

  // ---------- the shared evidence lists ----------

  /** A list object: the first event's story and the rebuilt story both refer to it. */
  class EvidenceList {
    var items: seq<Evidence>

    constructor (items: seq<Evidence>)
      ensures this.items == items
    {
      this.items := items;
    }
  }

  /** One list object per story. */
  ghost predicate Separated(lists: map<string, EvidenceList>) {
    forall a, b :: a in lists && b in lists && a != b ==> lists[a] != lists[b]
  }

  method MakeLists(stories: seq<Story>) returns (lists: map<string, EvidenceList>)
    ensures lists.Keys == Elems(Ids(stories)) && Separated(lists)
    ensures forall id :: id in lists ==> fresh(lists[id])
    ensures forall id :: id in lists ==> lists[id].items == ById(stories)[id].evidence
  {
    hide Elems, Distinct;
    lists := map[];
    var i := 0;
    EmptyIds(stories);
    while i < |stories|
      invariant 0 <= i <= |stories|
      invariant lists.Keys == Elems(Ids(stories[..i])) && Separated(lists)
      invariant forall id :: id in lists ==> fresh(lists[id])
      invariant forall id :: id in lists ==> lists[id].items == ById(stories[..i])[id].evidence
    {
      var cell := new EvidenceList(stories[i].evidence);
      OneMoreId(stories, i);
      lists := lists[stories[i].id := cell];
      i := i + 1;
    }
    assert stories[..i] == stories;
  }

  lemma EmptyIds(stories: seq<Story>)
    ensures Elems(Ids(stories[..0])) == {}
  {}

  lemma OneMoreId(stories: seq<Story>, i: nat)
    requires i < |stories|
    ensures Elems(Ids(stories[..i + 1])) == Elems(Ids(stories[..i])) + {stories[i].id}
    ensures ById(stories[..i + 1]) == ById(stories[..i])[stories[i].id := stories[i]]
  {
    assert stories[..i + 1][..i] == stories[..i];
    assert Ids(stories[..i + 1]) == Ids(stories[..i]) + [stories[i].id];
    ElemsAppend(Ids(stories[..i]), stories[i].id);
  }

  /** The checkpoints of the log, appended in place. */
  method ReplayIntoLists(goalId: string, events: seq<Event>, rebuilt: Snapshot, lists: map<string, EvidenceList>)
    requires |events| > 0 && events[0].body.payload.GoalCreated? && Rebuild(goalId, events) == Some(rebuilt)
    requires Separated(lists) && lists.Keys == Created(goalId, events[0]).stories.Keys
    requires forall id :: id in lists ==> lists[id].items == Created(goalId, events[0]).stories[id].evidence
    modifies lists.Values
    ensures lists.Keys == rebuilt.stories.Keys
    ensures forall id :: id in lists ==> lists[id].items == rebuilt.stories[id].evidence
  {
    hide Rebuild, Created, Replay;
    FirstRebuild(goalId, events);
    ghost var sn := Created(goalId, events[0]);
    var k := 1;
    while k < |events|
      invariant 1 <= k <= |events|
      invariant Rebuild(goalId, events[..k]) == Some(sn) && sn.stories.Keys == lists.Keys
      invariant forall id :: id in lists ==> lists[id].items == sn.stories[id].evidence
    {
      ReplayedSoFar(goalId, events, k);
      var e := events[k];
      ReplayStories(sn, e);
      if e.body.payload.Checkpointed? {
        var p := e.body.payload;
        lists[p.id].items := lists[p.id].items + [Evidence(p.path, p.sha, p.message, e.body.ts)];
      }
      sn := Replay(sn, e).value;
      k := k + 1;
    }
    assert events[..k] == events;
  }

  /**
   The stories of the first event after the rebuild has appended to the evidence lists it shares
   with them: the aliasing that RepairGoal writes back.
   */
  method SharedEvidence(goalId: string, events: seq<Event>, rebuilt: Snapshot) returns (list: seq<Story>)
    requires |events| > 0 && events[0].body.payload.GoalCreated? && Rebuild(goalId, events) == Some(rebuilt)
    ensures list == AliasStories(events[0].body.payload.stories, rebuilt.stories)
  {
    hide Rebuild, Created, Elems, ById;
    var stories := events[0].body.payload.stories;
    FirstRebuild(goalId, events);
    var lists := MakeLists(stories);
    ReplayIntoLists(goalId, events, rebuilt, lists);
    list := ReadBack(stories, lists, rebuilt.stories);
  }

  /** The first event's stories with what their lists hold now. */
  method ReadBack(stories: seq<Story>, lists: map<string, EvidenceList>, ghost rebuilt: Stories)
    returns (list: seq<Story>)
    requires lists.Keys == Elems(Ids(stories)) == rebuilt.Keys
    requires forall id :: id in lists ==> lists[id].items == rebuilt[id].evidence
    ensures list == AliasStories(stories, rebuilt)
  {
    hide Elems;
    list := [];
    var j := 0;
    while j < |stories|
      invariant 0 <= j <= |stories|
      invariant list == AliasStories(stories, rebuilt)[..j]
    {
      HasId(stories, j);
      ghost var all := AliasStories(stories, rebuilt);
      assert all[..j + 1] == all[..j] + [all[j]];
      list := list + [stories[j].(evidence := lists[stories[j].id].items)];
      j := j + 1;
    }
  }

  lemma HasId(stories: seq<Story>, j: nat)
    requires j < |stories|
    ensures stories[j].id in Elems(Ids(stories))
  {
    assert Ids(stories)[j] == stories[j].id;
  }

  lemma FirstRebuild(goalId: string, events: seq<Event>)
    requires |events| > 0 && events[0].body.payload.GoalCreated?
    ensures Rebuild(goalId, events[..1]) == Some(Created(goalId, events[0]))
    ensures Created(goalId, events[0]).stories == ById(events[0].body.payload.stories)
  {
    assert events[..1][0] == events[0];
  }

  lemma ReplayedSoFar(goalId: string, events: seq<Event>, k: nat)
    requires 0 < k < |events| && Rebuild(goalId, events).Some? && Rebuild(goalId, events[..k]).Some?
    ensures Replay(Rebuild(goalId, events[..k]).value, events[k]).Some?
    ensures Rebuild(goalId, events[..k + 1]) == Replay(Rebuild(goalId, events[..k]).value, events[k])
  {
    hide Replay;
    assert events[..k + 1][..k] == events[..k];
    if Rebuild(goalId, events[..k + 1]).None? { RebuildNone(goalId, events, k + 1); }
  }

  /** What one event does to the stories' evidence. */
  lemma ReplayStories(sn: Snapshot, e: Event)
    requires Replay(sn, e).Some?
    ensures var after, p := Replay(sn, e).value, e.body.payload;
      && after.stories.Keys == sn.stories.Keys
      && (p.Checkpointed? ==> p.id in sn.stories)
      && (forall id :: id in sn.stories ==>
            after.stories[id].evidence == sn.stories[id].evidence
              + if p.Checkpointed? && p.id == id then [Evidence(p.path, p.sha, p.message, e.body.ts)] else [])
  {
    hide ReplayPayload;
    forall id ensures var after, p := Replay(sn, e).value, e.body.payload;
      && after.stories.Keys == sn.stories.Keys && (p.Checkpointed? ==> p.id in sn.stories)
      && (id in sn.stories ==>
            after.stories[id].evidence == sn.stories[id].evidence
              + if p.Checkpointed? && p.id == id then [Evidence(p.path, p.sha, p.message, e.body.ts)] else [])
    {
      PayloadEvidence(sn, e.body.payload, e.body.ts, id);
    }
  }
}
