/**
 What holds in every state a goal can get into: replay rebuilds the snapshot, the story invariants,
 and what a confirmed repair does.
 */
module GoalTheorems {
  import opened Text
  import opened Options
  import opened StoryGraph
  import opened GoalLedger
  import opened GoalModel
  import opened GoalReplay
  import opened GoalRuns

  // ---------- the invariant along a run ----------

  lemma InitInv(h: Hash, goalId: string, raws: seq<RawStory>, title: string, objective: string,
                spec: Option<string>, plan: Option<string>, ts: string, invocation: string)
    requires ValidStories(raws)
    ensures StateInv(h, goalId, Init(h, goalId, StoredAll(raws), title, objective, spec, plan, ts, invocation))
  {
    hide ScanLedger, GoalInv, Strip, StoredAll, ValidStories;
    var s := Init(h, goalId, StoredAll(raws), title, objective, spec, plan, ts, invocation);
    var e := s.file.lines[0].event;
    NextEventLinks(h, [], goalId, ts, invocation, e.body.payload);
    var events := [e];
    assert [] + [e] == events;
    assert s.file.lines == Lines(events);
    assert FromRaws(e, raws);
    CreatedInv(goalId, e, raws);
    InvOfTitle(Created(goalId, e), s.snapshot);
    LoadIs(h, s, events);
    assert Tracks(h, goalId, s, events);
  }

  lemma InvOfTitle(a: Snapshot, b: Snapshot)
    requires GoalInv(a)
    requires a.stories == b.stories && a.status == b.status && a.verified == b.verified && a.blocker == b.blocker
    ensures GoalInv(b)
  {
    hide StoriesInv, Acyclic;
  }

  /** A committed operation on a tracked goal whose file ends in a newline. */
  lemma CommitInv(h: Hash, goalId: string, s: State, events: seq<Event>, op: Op, ts: string, invocation: string)
    requires s.snapshot.goalId == goalId && Tracks(h, goalId, s, events) && Load(h, s) == Some(events) && |events| > 0
    requires Live(s.snapshot, op, ts).Commit?
    ensures var c := Live(s.snapshot, op, ts);
      var e := NextEvent(h, events, goalId, ts, invocation, c.payload);
      && Chain(h, events + [e])
      && (Legal(goalId, events) || Orphan(events + [e]))
      && (Legal(goalId, events) ==>
            && Legal(goalId, events + [e]) && Rebuild(goalId, events + [e]).Some?
            && Agrees(Saved(c.snapshot, e), Rebuild(goalId, events + [e]).value) && GoalInv(Saved(c.snapshot, e)))
      && (Orphan(events) ==> Orphan(events + [e]) && OrphanSnapshot(Saved(c.snapshot, e)))
      && c.snapshot.goalId == goalId
  {
    hide ScanLedger, GoalInv, Live, Agrees, Legal, Linked, Load, ReplayPayload;
    var c := Live(s.snapshot, op, ts);
    var e := NextEvent(h, events, goalId, ts, invocation, c.payload);
    NextEventLinks(h, events, goalId, ts, invocation, c.payload);
    KeepsGoalId(s.snapshot, op, ts);
    if Legal(goalId, events) {
      var rebuilt := Rebuild(goalId, events).value;
      LiveKeepsInv(s.snapshot, op, ts);
      ReplayKeepsUp(s.snapshot, rebuilt, op, ts);
      assert LegalNext(rebuilt, e);
      LegalExtends(goalId, events, e);
      SavedAgrees(c.snapshot, ReplayPayload(rebuilt, c.payload, ts).value, e);
      TailKeepsInv(c.snapshot, e);
    }
    if Orphan(events) {
      OrphanLive(s.snapshot, op, ts);
    }
  }

  lemma KeepsGoalId(sn: Snapshot, op: Op, ts: string)
    requires Live(sn, op, ts).Commit?
    ensures Live(sn, op, ts).snapshot.goalId == sn.goalId
    ensures Live(sn, op, ts).snapshot.title == sn.title
  {
    hide Refresh, Strip, AllComplete;
  }

  lemma SavedAgrees(live: Snapshot, rebuilt: Snapshot, e: Event)
    requires Agrees(live, rebuilt)
    ensures Agrees(Saved(live, e),
                   rebuilt.(tailSequence := e.body.sequence, tailHash := e.hash, updatedAt := e.body.ts))
  {
    hide SameStories;
  }

  lemma OrphanLive(sn: Snapshot, op: Op, ts: string)
    requires OrphanSnapshot(sn) && Live(sn, op, ts).Commit?
    ensures OrphanSnapshot(Live(sn, op, ts).snapshot)
  {
    hide Strip, Identifier;
    assert Refresh(map[]) == map[];
  }

  /** What an operation does to a tracked goal: nothing, or one event more. */
  lemma DoOpCases(h: Hash, goalId: string, s: State, op: Op, ts: string, invocation: string)
    requires StateInv(h, goalId, s)
    ensures DoOp(h, s, op, ts, invocation) == s
      || (exists events :: Tracks(h, goalId, s, events) && Load(h, s) == Some(events) && |events| > 0
            && Live(s.snapshot, op, ts).Commit?
            && var c := Live(s.snapshot, op, ts);
               var e := NextEvent(h, events, goalId, ts, invocation, c.payload);
               c.snapshot.goalId == goalId
               && DoOp(h, s, op, ts, invocation) == s.(file := AppendLine(s.file, e), snapshot := Saved(c.snapshot, e)))
  {
    hide ScanLedger, Live, Tracks, MatchesTail, NextEvent, AppendLine;
    if Load(h, s).Some? {
      if Broken(h, s.file.lines) {
        BrokenScan(h, s.file.lines);
        assert false;
      } else {
        var events :| Tracks(h, goalId, s, events);
        LoadTracked(h, goalId, s, events);
        if Live(s.snapshot, op, ts).Commit? { KeepsGoalId(s.snapshot, op, ts); }
      }
    }
  }

  lemma LoadTracked(h: Hash, goalId: string, s: State, events: seq<Event>)
    requires Tracks(h, goalId, s, events) && Load(h, s).Some?
    ensures Load(h, s) == Some(events) && |events| > 0 && s.file.lines == Lines(events)
    ensures MatchesTail(s.snapshot, events)
  {
    hide ScanLedger, GoalInv, Agrees, Legal, Rebuild, Chain, OrphanSnapshot;
    LoadIs(h, s, events);
  }

  /** A file whose scan is not valid makes no promise about its snapshot. */
  lemma UnloadedTracks(h: Hash, goalId: string, s: State, events: seq<Event>)
    requires Tail(h, s.file.lines, events) && Load(h, s).None?
    requires |events| == 0 ==> |s.file.lines| == 1
    requires |events| > 0 ==> Legal(goalId, events) || Orphan(events)
    ensures Tracks(h, goalId, s, events)
  {
    hide Load, Tail, Legal, Rebuild, GoalInv, Agrees, OrphanSnapshot;
  }

  lemma LoadedTracks(h: Hash, goalId: string, s: State, events: seq<Event>)
    requires |events| > 0 && Chain(h, events) && s.file.lines == Lines(events)
    requires Legal(goalId, events) || Orphan(events)
    requires Legal(goalId, events) ==>
      Rebuild(goalId, events).Some? && Agrees(s.snapshot, Rebuild(goalId, events).value) && GoalInv(s.snapshot)
    requires Orphan(events) ==> OrphanSnapshot(s.snapshot)
    ensures Tracks(h, goalId, s, events)
  {
    hide Load, Legal, Rebuild, GoalInv, Agrees, OrphanSnapshot, ScanLedger, Chain;
  }

  /** The history without its last event is as good. */
  lemma ShorterHistory(goalId: string, events: seq<Event>, n: nat)
    requires 0 < n <= |events| && (Legal(goalId, events) || Orphan(events))
    ensures Legal(goalId, events[..n]) || Orphan(events[..n])
  {
    hide Legal;
    if Legal(goalId, events) { LegalPrefix(goalId, events, n); }
  }

  /** The file after an append: one event more, or the last line lost to the merge. */
  lemma AppendedFile(h: Hash, goalId: string, s: State, events: seq<Event>, e: Event, s': State)
    requires Tracks(h, goalId, s, events) && Load(h, s) == Some(events) && |events| > 0
    requires Chain(h, events + [e])
    requires s'.file.lines == AppendLine(s.file, e).lines
    ensures s.file.terminated ==> s'.file.lines == Lines(events + [e])
    ensures !s.file.terminated ==> Tracks(h, goalId, s', events[..|events| - 1])
  {
    hide ScanLedger, GoalInv, Agrees, Legal, Rebuild, OrphanSnapshot, Chain, MatchesTail, Load;
    LoadTracked(h, goalId, s, events);
    LinesAppend(events, e);
    if !s.file.terminated {
      var n := |events| - 1;
      var lines := s'.file.lines;
      assert Chain(h, events);
      assert lines[..n] == Lines(events[..n]);
      MergedTail(h, events, lines);
      assert lines != Lines(events[..n]) by { assert |lines| == n + 1; }
      LoadIs(h, s', events[..n]);
      if n > 0 { ShorterHistory(goalId, events, n); }
      UnloadedTracks(h, goalId, s', events[..n]);
    }
  }

  lemma DoInv(h: Hash, goalId: string, s: State, op: Op, ts: string, invocation: string)
    requires StateInv(h, goalId, s)
    ensures StateInv(h, goalId, DoOp(h, s, op, ts, invocation))
  {
    hide ScanLedger, GoalInv, Agrees, Legal, Rebuild, OrphanSnapshot, Chain, Load, Tracks, AppendLine, DoOp, Live;
    hide NextEvent, Broken;
    DoOpCases(h, goalId, s, op, ts, invocation);
    var t := DoOp(h, s, op, ts, invocation);
    if t != s {
      var events :| Tracks(h, goalId, s, events) && Load(h, s) == Some(events) && |events| > 0
        && Live(s.snapshot, op, ts).Commit?
        && var c := Live(s.snapshot, op, ts);
           var e := NextEvent(h, events, goalId, ts, invocation, c.payload);
           c.snapshot.goalId == goalId
           && t == s.(file := AppendLine(s.file, e), snapshot := Saved(c.snapshot, e));
      CommitInv(h, goalId, s, events, op, ts, invocation);
      var e := NextEvent(h, events, goalId, ts, invocation, Live(s.snapshot, op, ts).payload);
      AppendedFile(h, goalId, s, events, e, t);
      if s.file.terminated {
        TrackedHistory(h, goalId, s, events);
        LoadedTracksAfter(h, goalId, t, events, e);
        assert Tracks(h, goalId, t, events + [e]);
      } else {
        assert Tracks(h, goalId, t, events[..|events| - 1]);
      }
    }
  }

  lemma TrackedHistory(h: Hash, goalId: string, s: State, events: seq<Event>)
    requires Tracks(h, goalId, s, events) && |events| > 0
    ensures Legal(goalId, events) || Orphan(events)
    ensures Legal(goalId, events) ==> !Orphan(events)
  {
    hide Rebuild, Agrees, GoalInv, OrphanSnapshot, Load, Tail, LegalAt, ValidStories;
  }

  lemma LoadedTracksAfter(h: Hash, goalId: string, t: State, events: seq<Event>, e: Event)
    requires |events| > 0 && Chain(h, events + [e]) && t.file.lines == Lines(events + [e])
    requires Legal(goalId, events) || Orphan(events)
    requires Legal(goalId, events) ==>
      && Legal(goalId, events + [e]) && !Orphan(events) && Rebuild(goalId, events + [e]).Some?
      && Agrees(t.snapshot, Rebuild(goalId, events + [e]).value) && GoalInv(t.snapshot)
    requires Orphan(events) ==> Orphan(events + [e]) && OrphanSnapshot(t.snapshot)
    ensures Tracks(h, goalId, t, events + [e])
  {
    hide Rebuild, Agrees, GoalInv, OrphanSnapshot, LegalAt, ValidStories, ScanLedger;
    assert (events + [e])[0] == events[0];
    LoadedTracks(h, goalId, t, events + [e]);
  }

  lemma CrashInv(h: Hash, goalId: string, s: State, op: Op, ts: string, invocation: string, newline: bool)
    requires StateInv(h, goalId, s)
    ensures StateInv(h, goalId, Next(h, s, CrashAfterAppend(op, ts, invocation, newline)))
  {
    hide ScanLedger, GoalInv, Agrees, Legal, Rebuild, OrphanSnapshot, Chain, Load, Tracks, AppendLine, DoOp, Live;
    hide NextEvent, Broken;
    DoOpCases(h, goalId, s, op, ts, invocation);
    var after := DoOp(h, s, op, ts, invocation);
    var t := Next(h, s, CrashAfterAppend(op, ts, invocation, newline));
    if after != s {
      var events :| Tracks(h, goalId, s, events) && Load(h, s) == Some(events) && |events| > 0
        && Live(s.snapshot, op, ts).Commit?
        && var c := Live(s.snapshot, op, ts);
           var e := NextEvent(h, events, goalId, ts, invocation, c.payload);
           c.snapshot.goalId == goalId
           && after == s.(file := AppendLine(s.file, e), snapshot := Saved(c.snapshot, e));
      CommitInv(h, goalId, s, events, op, ts, invocation);
      var e := NextEvent(h, events, goalId, ts, invocation, Live(s.snapshot, op, ts).payload);
      AppendedFile(h, goalId, s, events, e, t);
      if s.file.terminated {
        TrackedHistory(h, goalId, s, events);
        LateSnapshot(h, goalId, s, events, e, t);
        assert Tracks(h, goalId, t, events + [e]);
      } else {
        assert Tracks(h, goalId, t, events[..|events| - 1]);
      }
    }
  }

  /** A snapshot one event behind its ledger is not loaded. */
  lemma LateSnapshot(h: Hash, goalId: string, s: State, events: seq<Event>, e: Event, t: State)
    requires Tracks(h, goalId, s, events) && Load(h, s) == Some(events) && |events| > 0
    requires Chain(h, events + [e]) && t.file.lines == Lines(events + [e]) && t.snapshot == s.snapshot
    requires Legal(goalId, events + [e]) || Orphan(events + [e])
    ensures Tracks(h, goalId, t, events + [e])
  {
    hide ScanLedger, GoalInv, Agrees, Legal, Rebuild, OrphanSnapshot, Chain;
    LoadTracked(h, goalId, s, events);
    LoadIs(h, t, events + [e]);
    assert Linked(h, events + [e], |events|) && Linked(h, events + [e], |events| - 1) by { ChainAll(h, events + [e]); }
    assert (events + [e])[|events| - 1] == events[|events| - 1];
    UnloadedTracks(h, goalId, t, events + [e]);
  }

  lemma ChainAll(h: Hash, events: seq<Event>)
    requires Chain(h, events)
    ensures forall k :: 0 <= k < |events| ==> Linked(h, events, k)
  {}

  /** Damage to the last line, or a torn line after the last: the events before it stay. */
  lemma DamageInv(h: Hash, goalId: string, s: State, t: State)
    requires StateInv(h, goalId, s) && t.snapshot == s.snapshot
    requires !ScanLedger(h, t.file.lines).Valid?
    requires (Load(h, s).Some? && |t.file.lines| == |s.file.lines| + 1
              && t.file.lines[..|s.file.lines|] == s.file.lines)
      || (|s.file.lines| > 0 && |t.file.lines| == |s.file.lines|
          && t.file.lines[..|s.file.lines| - 1] == s.file.lines[..|s.file.lines| - 1])
    ensures StateInv(h, goalId, t)
  {
    hide ScanLedger, GoalInv, Agrees, Legal, Rebuild, OrphanSnapshot, Chain, MatchesTail;
    var before, after := s.file.lines, t.file.lines;
    if Broken(h, before) {
      if Load(h, s).Some? { BrokenScan(h, before); }
      assert after[0] == before[..|before| - 1][0];
    } else {
      var events :| Tracks(h, goalId, s, events);
      if |after| == |before| + 1 {
        LoadTracked(h, goalId, s, events);
        assert Tail(h, after, events);
        UnloadedTracks(h, goalId, t, events);
      } else if before == Lines(events) {
        var n := |events| - 1;
        var short := events[..n];
        assert Chain(h, short) by { ChainPrefix(h, events, n); }
        assert after[..n] == Lines(short);
        assert Tail(h, after, short);
        if n > 0 { ShorterHistory(goalId, events, n); }
        UnloadedTracks(h, goalId, t, short);
      } else {
        assert after[..|events|] == before[..|events|];
        assert Tail(h, after, events);
        UnloadedTracks(h, goalId, t, events);
      }
    }
  }

  // ---------- repair ----------

  /** The events after the first hold a checkpoint. */
  predicate HasCheckpoint(events: seq<Event>) {
    exists k :: 0 < k < |events| && events[k].body.payload.Checkpointed?
  }

  function EvidenceOf(stories: Stories, id: string): seq<Evidence> {
    if id in stories then stories[id].evidence else []
  }

  /** What one event does to the evidence of a story: a checkpoint adds to it, nothing takes from it. */
  lemma ReplayEvidence(sn: Snapshot, e: Event, id: string)
    requires Replay(sn, e).Some?
    ensures var after := Replay(sn, e).value;
      && after.stories.Keys == sn.stories.Keys
      && (e.body.payload.Checkpointed? && e.body.payload.id == id ==> id in sn.stories)
      && |EvidenceOf(after.stories, id)|
           == |EvidenceOf(sn.stories, id)| + (if e.body.payload.Checkpointed? && e.body.payload.id == id then 1 else 0)
      && (!(e.body.payload.Checkpointed? && e.body.payload.id == id) ==>
          EvidenceOf(after.stories, id) == EvidenceOf(sn.stories, id))
  {
    hide ReplayPayload;
    PayloadEvidence(sn, e.body.payload, e.body.ts, id);
  }

  /** Without a checkpoint the evidence stays as created; with one, some story's grew. */
  lemma {:induction false} EvidenceGrows(goalId: string, events: seq<Event>)
    requires |events| > 0 && Rebuild(goalId, events).Some? && events[0].body.payload.GoalCreated?
    ensures var first, last := Created(goalId, events[0]).stories, Rebuild(goalId, events).value.stories;
      && last.Keys == first.Keys
      && (forall id :: |EvidenceOf(last, id)| >= |EvidenceOf(first, id)|)
      && (!HasCheckpoint(events) ==> forall id :: EvidenceOf(last, id) == EvidenceOf(first, id))
      && (HasCheckpoint(events) ==> exists id :: id in first && |EvidenceOf(last, id)| > |EvidenceOf(first, id)|)
    decreases |events|
  {
    hide Replay, Created, EvidenceOf;
    var n := |events| - 1;
    if n > 0 {
      var init := events[..n];
      EvidenceGrows(goalId, init);
      var sn, e := Rebuild(goalId, init).value, events[n];
      forall id { ReplayEvidence(sn, e, id); }
      assert HasCheckpoint(init) ==> HasCheckpoint(events);
      if e.body.payload.Checkpointed? {
        assert HasCheckpoint(events);
        ReplayEvidence(sn, e, e.body.payload.id);
      } else if HasCheckpoint(events) {
        var k :| 0 < k < |events| && events[k].body.payload.Checkpointed?;
        assert init[k] == events[k];
      }
    }
  }

  lemma FirstOf(goalId: string, events: seq<Event>) returns (raws: seq<RawStory>)
    requires Legal(goalId, events)
    ensures FromRaws(events[0], raws)
  {
    hide LegalAt, ValidStories;
    raws :| FromRaws(events[0], raws);
  }

  /** The rebuild writes into the first event exactly when there is a checkpoint to replay. */
  lemma AliasChangesIff(goalId: string, prefix: seq<Event>)
    requires Legal(goalId, prefix) && Rebuild(goalId, prefix).Some? && prefix[0].body.payload.GoalCreated?
    ensures AliasFirst(prefix[0], Rebuild(goalId, prefix).value.stories).body == prefix[0].body <==>
      !HasCheckpoint(prefix)
  {
    hide Legal, Rebuild, Strip, HasCheckpoint, StoredAll, KnownDeps, Acyclic, RawOk, AliasStories, EvidenceOf, ById;
    LegalNonEmpty(goalId, prefix);
    var raws := FirstOf(goalId, prefix);
    var list := prefix[0].body.payload.stories;
    var last := Rebuild(goalId, prefix).value.stories;
    EvidenceGrows(goalId, prefix);
    if !HasCheckpoint(prefix) {
      SameEvidenceSameList(list, last);
    } else {
      var id :| id in ById(list) && |EvidenceOf(last, id)| > |EvidenceOf(ById(list), id)|;
      MoreEvidenceOtherList(list, last, id);
    }
  }

  lemma SameEvidenceSameList(list: seq<Story>, last: Stories)
    requires Distinct(Ids(list)) && forall id :: EvidenceOf(last, id) == EvidenceOf(ById(list), id)
    requires last.Keys == ById(list).Keys
    ensures AliasStories(list, last) == list
  {
    var aliased, first := AliasStories(list, last), ById(list);
    forall i | 0 <= i < |list| ensures aliased[i] == list[i] {
      assert first[list[i].id] == list[i];
      assert EvidenceOf(last, list[i].id) == EvidenceOf(first, list[i].id);
    }
  }

  lemma MoreEvidenceOtherList(list: seq<Story>, last: Stories, id: string)
    requires Distinct(Ids(list)) && last.Keys == ById(list).Keys
    requires id in ById(list) && |EvidenceOf(last, id)| > |EvidenceOf(ById(list), id)|
    ensures AliasStories(list, last) != list
  {
    hide Distinct;
    var first := ById(list);
    assert first[id] in list;
    var i :| 0 <= i < |list| && list[i] == first[id];
    assert AliasStories(list, last)[i].evidence != list[i].evidence;
  }

  /** A changed first event no longer carries its own hash. */
  lemma ChangedFirstIsBroken(h: Hash, events: seq<Event>, first: Event, rest: seq<Event>)
    requires Injective(h) && Chain(h, events) && |events| > 0 && |rest| > 0
    requires first.hash == events[0].hash && first.body != events[0].body
    requires first.body.prevHash == events[0].body.prevHash
    ensures Broken(h, Lines([first] + rest))
  {
    assert Linked(h, events, 0);
    assert first.hash == h(events[0].body.prevHash, events[0].body);
    assert first.hash != h(first.body.prevHash, first.body);
    assert [first][0] == first;
    assert Lines([first] + rest)[0].event == first;
  }

  /** What a confirmed repair of a damaged last line leaves, for a goal with a legal history. */
  lemma RepairedFile(h: Hash, goalId: string, s: State, prefix: seq<Event>, ts: string, invocation: string)
    requires Injective(h) && goalId != "" && s.snapshot.goalId == goalId
    requires Legal(goalId, prefix) && Rebuild(goalId, prefix).Some? && Chain(h, prefix)
    requires ScanLedger(h, s.file.lines).Damaged? && ScanLedger(h, s.file.lines).prefix == prefix
    ensures var (t, action) := RepairGoal(h, s, true, ts, invocation);
      var e := NextEvent(h, prefix, goalId, ts, invocation, LedgerRepaired("", |prefix|, TailHash(prefix)));
      && action == Repaired && t.backups == s.backups + [s.file] && t.file.terminated
      && (HasCheckpoint(prefix) ==> Broken(h, t.file.lines))
      && (!HasCheckpoint(prefix) ==>
            && t.file.lines == Lines(prefix + [e]) && Chain(h, prefix + [e]) && Legal(goalId, prefix + [e])
            && Load(h, t) == Some(prefix + [e])
            && Rebuild(goalId, prefix + [e]).Some? && Agrees(t.snapshot, Rebuild(goalId, prefix + [e]).value)
                 && GoalInv(t.snapshot))
      && |t.file.lines| == |prefix| + 1 && t.snapshot.goalId == goalId
      && t.snapshot == Saved(Rebuild(goalId, prefix).value, e)
  {
    hide ScanLedger, Legal, Rebuild, Chain, HasCheckpoint, Injective, Broken, Linked, GoalInv, Agrees, AliasStories;
    hide Replay, NextEvent;
    var p := LedgerRepaired("", |prefix|, TailHash(prefix));
    var e := NextEvent(h, prefix, goalId, ts, invocation, p);
    var (t, action) := RepairGoal(h, s, true, ts, invocation);
    RebuildFirst(goalId, prefix) by { LegalNonEmpty(goalId, prefix); }
    LegalNonEmpty(goalId, prefix);
    var sn := Rebuild(goalId, prefix).value;
    var first := AliasFirst(prefix[0], sn.stories);
    RebuildKeepsId(goalId, prefix);
    AliasChangesIff(goalId, prefix);
    assert t.file.lines == Lines(WrittenBack(prefix, sn) + [e]);
    assert WrittenBack(prefix, sn) + [e] == [first] + (prefix[1..] + [e]);
    NextPayload(h, prefix, goalId, ts, invocation, p);
    NextEventLinks(h, prefix, goalId, ts, invocation, p);
    if HasCheckpoint(prefix) {
      ChangedFirstIsBroken(h, prefix, first, prefix[1..] + [e]);
    } else {
      assert first == prefix[0];
      assert WrittenBack(prefix, sn) == prefix;
      LegalExtends(goalId, prefix, e);
      LegalRebuilds(goalId, prefix);
      RepairedReplay(sn, e);
      TailKeepsInv(sn, e);
      RepairedAgrees(sn, e);
      ScanExactly(h, t.file.lines, prefix + [e]);
      assert (prefix + [e])[|prefix|] == e;
    }
  }

  lemma LegalNonEmpty(goalId: string, events: seq<Event>)
    requires Legal(goalId, events)
    ensures |events| > 0
  {}

  lemma NextPayload(h: Hash, events: seq<Event>, goalId: string, ts: string, invocation: string, p: Payload)
    ensures NextEvent(h, events, goalId, ts, invocation, p).body.payload == p
    ensures NextEvent(h, events, goalId, ts, invocation, p).body.ts == ts
  {}

  lemma RepairedAgrees(sn: Snapshot, e: Event)
    requires sn.title != ""
    ensures Agrees(Saved(sn, e), sn.(tailSequence := e.body.sequence, tailHash := e.hash, updatedAt := e.body.ts))
  {}

  /** A rebuilt snapshot carries the goal's id and a title that is not blank. */
  lemma {:induction false} RebuildKeepsId(goalId: string, events: seq<Event>)
    requires |events| > 0 && Rebuild(goalId, events).Some? && goalId != ""
    ensures Rebuild(goalId, events).value.goalId == goalId && Rebuild(goalId, events).value.title != ""
    decreases |events|
  {
    hide Replay;
    if |events| > 1 {
      RebuildKeepsId(goalId, events[..|events| - 1]);
      ReplayKeepsId(Rebuild(goalId, events[..|events| - 1]).value, events[|events| - 1]);
    }
  }

  lemma ReplayKeepsId(sn: Snapshot, e: Event)
    requires Replay(sn, e).Some?
    ensures Replay(sn, e).value.goalId == sn.goalId && Replay(sn, e).value.title == sn.title
  {
    hide Refresh, AllComplete;
  }

  /** A repair of which nothing is left to rebuild. */
  lemma EmptyRepair(h: Hash, goalId: string, s: State, ts: string, invocation: string)
    requires s.snapshot.goalId == goalId
    requires ScanLedger(h, s.file.lines).Damaged? && ScanLedger(h, s.file.lines).prefix == []
    ensures var (t, action) := RepairGoal(h, s, true, ts, invocation);
      action == Repaired && StateInv(h, goalId, t) && Load(h, t).Some? && t.backups == s.backups + [s.file]
  {
    hide ScanLedger, Legal, Rebuild, GoalInv, Agrees, Linked;
    var p := LedgerRepaired("", 0, GENESIS);
    var e := NextEvent(h, [], goalId, ts, invocation, p);
    var (t, action) := RepairGoal(h, s, true, ts, invocation);
    NextEventLinks(h, [], goalId, ts, invocation, p);
    assert [] + [e] == [e];
    assert t.file.lines == Lines([e]);
    ScanExactly(h, t.file.lines, [e]);
    NoLegalOrphan(goalId, [e]);
    LoadedTracks(h, goalId, t, [e]);
    assert Tracks(h, goalId, t, [e]);
  }

  lemma NoLegalOrphan(goalId: string, events: seq<Event>)
    requires Orphan(events)
    ensures !Legal(goalId, events)
  {
    hide LegalAt, ValidStories;
  }

  lemma RepairInv(h: Hash, goalId: string, s: State, confirmed: bool, ts: string, invocation: string)
    requires Injective(h) && goalId != "" && StateInv(h, goalId, s)
    ensures StateInv(h, goalId, RepairGoal(h, s, confirmed, ts, invocation).0)
  {
    hide ScanLedger, Legal, Rebuild, Chain, HasCheckpoint, Injective, Broken, GoalInv, Agrees, OrphanSnapshot;
    hide NextEvent, WrittenBack;
    var scan := ScanLedger(h, s.file.lines);
    var t := RepairGoal(h, s, confirmed, ts, invocation).0;
    if t == s {
    } else if !scan.Damaged? {
      ForensicInv(h, goalId, s, t);
    } else if |scan.prefix| == 0 {
      EmptyRepair(h, goalId, s, ts, invocation);
    } else {
      DamagedIsTracked(h, goalId, s);
      var prefix := scan.prefix;
      if Legal(goalId, prefix) {
        LegalRebuilds(goalId, prefix);
        RepairedFile(h, goalId, s, prefix, ts, invocation);
        if !HasCheckpoint(prefix) {
          var e := NextEvent(h, prefix, goalId, ts, invocation, LedgerRepaired("", |prefix|, TailHash(prefix)));
          assert (prefix + [e])[0] == prefix[0];
          LegalIsNoOrphan(goalId, prefix + [e]);
          LoadedTracks(h, goalId, t, prefix + [e]);
          assert Tracks(h, goalId, t, prefix + [e]);
        }
      } else {
        OrphanRebuild(goalId, prefix);
        var events :| Tracks(h, goalId, s, events);
        SameFileTracks(h, goalId, s, t, events);
        assert Tracks(h, goalId, t, events);
      }
    }
  }

  lemma LegalIsNoOrphan(goalId: string, events: seq<Event>)
    requires Legal(goalId, events)
    ensures !Orphan(events)
  {
    hide LegalAt, ValidStories;
  }

  lemma {:induction false} OrphanRebuild(goalId: string, events: seq<Event>)
    requires Orphan(events)
    ensures Rebuild(goalId, events).None?
    decreases |events|
  {
    hide Replay;
    if |events| > 1 { OrphanRebuild(goalId, events[..|events| - 1]); }
  }

  /** Only backups differ. */
  lemma SameFileTracks(h: Hash, goalId: string, s: State, t: State, events: seq<Event>)
    requires Tracks(h, goalId, s, events) && t.file.lines == s.file.lines && t.snapshot == s.snapshot
    ensures Tracks(h, goalId, t, events)
  {
    hide ScanLedger, Legal, Rebuild, GoalInv, Agrees, OrphanSnapshot, Tail;
  }

  /** The valid prefix of a damaged reachable file is the history it keeps. */
  lemma DamagedIsTracked(h: Hash, goalId: string, s: State)
    requires StateInv(h, goalId, s) && ScanLedger(h, s.file.lines).Damaged?
    ensures var prefix := ScanLedger(h, s.file.lines).prefix;
      && Tracks(h, goalId, s, prefix) && Chain(h, prefix)
      && (|prefix| > 0 ==> Legal(goalId, prefix) || Orphan(prefix))
  {
    hide ScanLedger, Legal, Rebuild, GoalInv, Agrees, OrphanSnapshot, Chain, Load;
    var scan := ScanLedger(h, s.file.lines);
    if Broken(h, s.file.lines) {
      BrokenScan(h, s.file.lines);
      assert false;
    }
    var events :| Tracks(h, goalId, s, events);
    ScanExactly(h, s.file.lines, scan.prefix);
    ScanExactly(h, s.file.lines, events);
    assert s.file.lines != Lines(events);
    assert s.file.lines[..|events|] == Lines(scan.prefix)[..|events|] == Lines(scan.prefix);
    LinesInjective();
  }

  /** A refused repair marks the snapshot; the goal was not loadable and still is not. */
  lemma ForensicInv(h: Hash, goalId: string, s: State, t: State)
    requires StateInv(h, goalId, s) && Load(h, s).None?
    requires t.file == s.file && t.snapshot.tailSequence == s.snapshot.tailSequence
    requires t.snapshot.tailHash == s.snapshot.tailHash
    requires t.snapshot.goalId == goalId
    ensures StateInv(h, goalId, t) && Load(h, t).None?
  {
    hide Legal, Rebuild, GoalInv, Agrees, OrphanSnapshot, Chain, ScanLedger, Broken, Tail;
    if !Broken(h, s.file.lines) {
      var events :| Tracks(h, goalId, s, events);
      UnloadedTracks(h, goalId, t, events);
      assert Tracks(h, goalId, t, events);
    }
  }

  // ---------- runs ----------

  lemma StepInv(h: Hash, goalId: string, s: State, step: Step)
    requires Injective(h) && goalId != "" && StateInv(h, goalId, s) && Enabled(h, s, step)
    ensures StateInv(h, goalId, Next(h, s, step))
  {
    hide ScanLedger, DoOp, RepairGoal, Tracks, Broken, Injective;
    var t := Next(h, s, step);
    match step
    case Do(op, ts, invocation) => DoInv(h, goalId, s, op, ts, invocation);
    case CrashAfterAppend(op, ts, invocation, newline) => CrashInv(h, goalId, s, op, ts, invocation, newline);
    case TornAppend(line) => DamageInv(h, goalId, s, t);
    case DamageLast(line, newline) => DamageInv(h, goalId, s, t);
    case DropNewline =>
      if !Broken(h, s.file.lines) {
        var events :| Tracks(h, goalId, s, events);
        SameFileTracks(h, goalId, s, t, events);
        assert Tracks(h, goalId, t, events);
      }
    case Repair(confirmed, ts, invocation) => RepairInv(h, goalId, s, confirmed, ts, invocation);
  }

  lemma {:induction false} RunInv(h: Hash, goalId: string, states: seq<State>, steps: seq<Step>, n: nat)
    requires Injective(h) && goalId != "" && Run(h, goalId, states, steps) && n <= |steps|
    ensures n < |states| && StateInv(h, goalId, states[n])
    decreases n
  {
    hide Init, Next, Enabled, StateInv, Injective, ValidStories;
    if n == 0 {
      var raws, title, objective, spec, plan, ts, invocation :|
        ValidStories(raws) && states[0]
            == Init(h, goalId, StoredAll(raws), title, objective, spec, plan, ts, invocation);
      InitInv(h, goalId, raws, title, objective, spec, plan, ts, invocation);
    } else {
      RunInv(h, goalId, states, steps, n - 1);
      assert StepOk(h, states[n - 1], steps[n - 1], states[n - 1 + 1]);
      StepInv(h, goalId, states[n - 1], steps[n - 1]);
    }
  }

  /** Replaying gives the live snapshot, but for the revision and the times inside evidence. */
  predicate ReplaysTo(goalId: string, events: seq<Event>, live: Snapshot) {
    && |events| > 0 && Rebuild(goalId, events).Some?
    && var rebuilt := Rebuild(goalId, events).value;
       SameStories(live.stories, rebuilt.stories)
       && rebuilt == live.(revision := rebuilt.revision, stories := rebuilt.stories)
  }

  /**
   In every state a goal gets into whose ledger and snapshot load, replay rebuilds the snapshot
   exactly when the ledger still starts with the goal's creation and the title is not blank.
   */
  lemma ReplayRebuildsSnapshot(h: Hash, goalId: string, states: seq<State>, steps: seq<Step>, n: nat)
    requires Injective(h) && goalId != "" && Run(h, goalId, states, steps) && n <= |steps| && Load(h, states[n]).Some?
    ensures var s := states[n];
      var events := Load(h, s).value;
      && |events| > 0
      && (ReplaysTo(goalId, events, s.snapshot) <==> events[0].body.payload.GoalCreated? && s.snapshot.title != "")
  {
    hide Run, ScanLedger, GoalInv, Legal, Rebuild, OrphanSnapshot, Injective, SameStories, MatchesTail;
    RunInv(h, goalId, states, steps, n);
    var s := states[n];
    if Broken(h, s.file.lines) {
      BrokenScan(h, s.file.lines);
      assert false;
    }
    var events :| Tracks(h, goalId, s, events);
    LoadTracked(h, goalId, s, events);
    if Legal(goalId, events) {
      LegalCreated(goalId, events);
      RebuildKeepsId(goalId, events);
    } else {
      OrphanRebuild(goalId, events);
    }
  }

  lemma LegalCreated(goalId: string, events: seq<Event>)
    requires Legal(goalId, events)
    ensures |events| > 0 && events[0].body.payload.GoalCreated?
  {
    hide LegalAt, ValidStories;
  }

  /** The story invariants in every state whose ledger and snapshot load. */
  lemma StoryInvariants(h: Hash, goalId: string, states: seq<State>, steps: seq<Step>, n: nat)
    requires Injective(h) && goalId != "" && Run(h, goalId, states, steps) && n <= |steps| && Load(h, states[n]).Some?
    ensures var sn := states[n].snapshot;
      && (forall id, i ::
            id in sn.stories && sn.stories[id].status != Pending && 0 <= i < |sn.stories[id].dependsOn| ==>
              IsComplete(sn.stories, sn.stories[id].dependsOn[i]))
      && (sn.status == CompleteGoal || sn.status == VerifiedGoal ==>
            forall id :: id in sn.stories ==> sn.stories[id].status == Complete)
      && ((forall id :: id in sn.stories ==> sn.stories[id].status != Blocked)
          && (exists id :: id in sn.stories && sn.stories[id].status != Complete)
          ==> exists id :: id in sn.stories && (sn.stories[id].status == Ready || sn.stories[id].status == InProgress))
  {
    hide Run, ScanLedger, GoalInv, Legal, Rebuild, Injective, SameStories, MatchesTail, Agrees;
    RunInv(h, goalId, states, steps, n);
    var s := states[n];
    if Broken(h, s.file.lines) {
      BrokenScan(h, s.file.lines);
      assert false;
    }
    var events :| Tracks(h, goalId, s, events);
    LoadTracked(h, goalId, s, events);
    if Legal(goalId, events) {
      InvMeaning(s.snapshot);
    }
  }

  /**
   Confirmed repair of a damaged last line, in any state of a run: with something left of the goal's
   own history, the file becomes that history and one repair event, and loads again, exactly when no
   checkpoint has to be replayed.  The damaged file is kept as a backup.
   */
  lemma RepairWorksIffNoCheckpoint(h: Hash, goalId: string, states: seq<State>, steps: seq<Step>, n: nat, ts: string,
                                   invocation: string)
    requires Injective(h) && goalId != "" && Run(h, goalId, states, steps) && n <= |steps|
    requires ScanLedger(h, states[n].file.lines).Damaged?
    requires var prefix := ScanLedger(h, states[n].file.lines).prefix;
      |prefix| > 0 && prefix[0].body.payload.GoalCreated?
    ensures var s := states[n];
      var prefix := ScanLedger(h, s.file.lines).prefix;
      var (t, action) := RepairGoal(h, s, true, ts, invocation);
      var (u, again) := RepairGoal(h, t, true, ts, invocation);
      && action == Repaired && t.backups == s.backups + [s.file]
      && |t.file.lines| == |prefix| + 1
      && (Load(h, t).Some? <==> !HasCheckpoint(prefix))
      && (!HasCheckpoint(prefix) ==>
            && (exists e :: Load(h, t) == Some(prefix + [e]) && e.body.payload.LedgerRepaired?)
            && t.file.lines[..|prefix|] == Lines(prefix)
            && ReplaysTo(goalId, Load(h, t).value, t.snapshot)
            && u == t && again == AlreadyHealthy)
      && (HasCheckpoint(prefix) ==> again == MarkedForensic && u.file == t.file)
  {
    hide Run, Legal, Rebuild, GoalInv, Injective, SameStories, MatchesTail, HasCheckpoint, Broken, Chain, NextEvent;
    hide OrphanSnapshot;
    RunInv(h, goalId, states, steps, n);
    var s := states[n];
    var prefix := ScanLedger(h, s.file.lines).prefix;
    hide ScanLedger;
    DamagedIsTracked(h, goalId, s);
    LegalRebuilds(goalId, prefix);
    RepairedFile(h, goalId, s, prefix, ts, invocation);
    var t := RepairGoal(h, s, true, ts, invocation).0;
    var e := NextEvent(h, prefix, goalId, ts, invocation, LedgerRepaired("", |prefix|, TailHash(prefix)));
    hide RepairGoal;
    NextPayload(h, prefix, goalId, ts, invocation, LedgerRepaired("", |prefix|, TailHash(prefix)));
    AfterRepair(h, goalId, t, prefix, e, ts, invocation);
  }

  /** The repaired file seen once more. */
  lemma AfterRepair(h: Hash, goalId: string, t: State, prefix: seq<Event>, e: Event, ts: string, invocation: string)
    requires goalId != "" && |prefix| > 0 && Rebuild(goalId, prefix).Some?
    requires t.snapshot == Saved(Rebuild(goalId, prefix).value, e)
    requires HasCheckpoint(prefix) ==> Broken(h, t.file.lines)
    requires !HasCheckpoint(prefix) ==>
      && t.file.lines == Lines(prefix + [e]) && Load(h, t) == Some(prefix + [e])
      && Rebuild(goalId, prefix + [e]).Some? && Agrees(t.snapshot, Rebuild(goalId, prefix + [e]).value)
    ensures var (u, again) := RepairGoal(h, t, true, ts, invocation);
      && (Load(h, t).Some? <==> !HasCheckpoint(prefix))
      && (!HasCheckpoint(prefix) ==>
            && t.file.lines[..|prefix|] == Lines(prefix)
            && ReplaysTo(goalId, prefix + [e], t.snapshot)
            && u == t && again == AlreadyHealthy)
      && (HasCheckpoint(prefix) ==> again == MarkedForensic && u.file == t.file)
  {
    hide Rebuild, ScanLedger, MatchesTail, HasCheckpoint, Broken, Chain, NextEvent, SameStories, WrittenBack;
    RebuildKeepsId(goalId, prefix);
    LinesAppend(prefix, e);
    if HasCheckpoint(prefix) { BrokenScan(h, t.file.lines); }
  }

  /** A ledger damaged before its last line is never written to, and never shortened. */
  lemma RefusedRepairKeepsLedger(h: Hash, s: State, confirmed: bool, ts: string, invocation: string)
    requires ScanLedger(h, s.file.lines).Refused?
    ensures var (t, action) := RepairGoal(h, s, confirmed, ts, invocation);
      && t.file == s.file && t.backups == s.backups
      && action == (if confirmed then MarkedForensic else DryRun)
      && (!confirmed ==> t == s)
  {
    hide ScanLedger;
  }

  /** Across operations of a run, a complete story stays complete. */
  lemma CompleteStaysOnRuns(h: Hash, goalId: string, states: seq<State>, steps: seq<Step>, n: nat, id: string)
    requires Injective(h) && goalId != "" && Run(h, goalId, states, steps) && n < |steps| && steps[n].Do?
    requires Load(h, states[n]).Some? && IsComplete(states[n].snapshot.stories, id)
    ensures IsComplete(states[n + 1].snapshot.stories, id)
  {
    hide ScanLedger, GoalInv, Legal, Rebuild, Injective, SameStories, MatchesTail, Agrees, Live, IsInit, AppendLine;
    hide NextEvent;
    RunInv(h, goalId, states, steps, n);
    var s, op, ts := states[n], steps[n].op, steps[n].ts;
    assert StepOk(h, s, steps[n], states[n + 1]);
    if Broken(h, s.file.lines) {
      BrokenScan(h, s.file.lines);
      assert false;
    }
    var events :| Tracks(h, goalId, s, events);
    LoadTracked(h, goalId, s, events);
    if Live(s.snapshot, op, ts).Commit? && Legal(goalId, events) {
      CompleteStays(s.snapshot, op, ts, id);
    }
  }
}
