/**
 Story-graph validation of omg_cli/goals.py: which lists of stories make a goal, and the worklist
 that looks for a topological order.
 */
module StoryGraph {
  import opened Options
  import opened Text

  datatype Status = Pending | Ready | InProgress | Blocked | Complete

  datatype Evidence = Evidence(path: string, sha: string, message: string, at: string)

  datatype Story = Story(
    id: string, title: string, dependsOn: seq<string>, acceptance: string, status: Status,
    blockReason: Option<string>, nextAction: Option<string>, evidence: seq<Evidence>, checkpoints: nat)

  /** What the caller hands in for one story. */
  datatype RawStory = RawStory(id: string, title: Option<string>, dependsOn: seq<string>, acceptance: string)

  datatype GraphError = NoStories | BadIdentifier | DuplicateStory | MissingAcceptance | UnknownDependency | Cycle

  /** The stories of an accepted graph in their order, or why the list is refused. */
  datatype Graph = Accepted(stories: seq<Story>) | Rejected(error: GraphError)

  // ---------- identifiers ----------

  predicate IdentifierHead(c: char) { 'a' <= c <= 'z' || 'A' <= c <= 'Z' || IsDigit(c) }

  /** `[A-Za-z0-9][A-Za-z0-9._-]{0,127}` */
  predicate Identifier(s: string) {
    && 1 <= |s| <= 128 && IdentifierHead(s[0])
    && forall i :: 1 <= i < |s| ==> IdentifierHead(s[i]) || s[i] in "._-"
  }

  // ---------- topological orders ----------

  type Deps = map<string, set<string>>

  function Elems(s: seq<string>): set<string> { set x | x in s }

  predicate Distinct(s: seq<string>) { forall i, j :: 0 <= i < j < |s| ==> s[i] != s[j] }

  /** Every id has its dependencies before it. */
  predicate Ordered(order: seq<string>, deps: Deps) {
    forall i :: 0 <= i < |order| ==> order[i] in deps && deps[order[i]] <= Elems(order[..i])
  }

  predicate Topological(order: seq<string>, deps: Deps) {
    Distinct(order) && Elems(order) == deps.Keys && Ordered(order, deps)
  }

  predicate KnownDeps(deps: Deps) { forall id :: id in deps ==> deps[id] <= deps.Keys }

  ghost predicate Acyclic(deps: Deps) { exists order :: Topological(order, deps) }

  lemma ElemsAppend(s: seq<string>, x: string)
    ensures Elems(s + [x]) == Elems(s) + {x}
  {}

  lemma {:induction false} DistinctSize(s: seq<string>)
    requires Distinct(s)
    ensures |Elems(s)| == |s|
  {
    if |s| > 0 {
      var init := s[..|s| - 1];
      DistinctSize(init);
      assert s == init + [s[|s| - 1]];
      ElemsAppend(init, s[|s| - 1]);
    }
  }

  /** A set in which every member depends on a member has no place in a topological order. */
  lemma {:induction false} StuckSetIsEmpty(stuck: set<string>, order: seq<string>, deps: Deps, n: nat)
    requires Ordered(order, deps) && n <= |order|
    requires forall id :: id in stuck ==> id in deps && deps[id] * stuck != {}
    ensures stuck !! Elems(order[..n])
  {
    if n > 0 {
      StuckSetIsEmpty(stuck, order, deps, n - 1);
      assert order[..n] == order[..n - 1] + [order[n - 1]];
      ElemsAppend(order[..n - 1], order[n - 1]);
    }
  }

  // ---------- the worklist ----------

  /** No story is listed twice, neither within the two lists nor across them. */
  predicate Separate(ordered: seq<string>, ready: seq<string>) {
    Distinct(ordered) && Distinct(ready) && forall x :: x in ready ==> x !in ordered
  }

  /** What the worklist keeps between two stories. */
  ghost predicate Progress(ordered: seq<string>, ready: seq<string>, remaining: Deps, deps: Deps) {
    && remaining.Keys == deps.Keys
    && Separate(ordered, ready)
    && Elems(ordered) <= deps.Keys && Elems(ready) <= deps.Keys
    && (forall id :: id in deps ==> remaining[id] == deps[id] - Elems(ordered))
    && (forall id :: id in deps ==> ((id in ordered || id in ready) <==> remaining[id] == {}))
    && Ordered(ordered, deps)
  }

  /** The same in the middle of the scan for stories that waited for `sid`. */
  ghost predicate Scanning(ids: seq<string>, k: nat, sid: string, ordered: seq<string>, ready: seq<string>,
                           remaining: Deps, deps: Deps)
    requires k <= |ids|
  {
    && remaining.Keys == deps.Keys
    && Separate(ordered, ready)
    && Elems(ordered) <= deps.Keys && Elems(ready) <= deps.Keys
    && |ordered| > 0 && ordered[|ordered| - 1] == sid
    && (forall j :: 0 <= j < k ==> ids[j] in deps && remaining[ids[j]] == deps[ids[j]] - Elems(ordered))
    && (forall j :: k <= j < |ids| ==> ids[j] in deps && remaining[ids[j]] == deps[ids[j]] - (Elems(ordered) - {sid}))
    && (forall id :: id in deps ==> ((id in ordered || id in ready) <==> remaining[id] == {}))
    && Ordered(ordered, deps)
  }

  /** One story taken from the worklist. */
  lemma TakeReady(ids: seq<string>, ordered: seq<string>, ready: seq<string>, remaining: Deps, deps: Deps)
    requires Progress(ordered, ready, remaining, deps) && |ready| > 0
    requires Elems(ids) == deps.Keys
    ensures var sid := ready[|ready| - 1];
      Scanning(ids, 0, sid, ordered + [sid], ready[..|ready| - 1], remaining, deps)
  {
    hide Ordered, Separate, Elems;
    var n := |ready| - 1;
    var sid := ready[n];
    var ordered', ready' := ordered + [sid], ready[..n];
    assert ready == ready' + [sid];
    TakeSeparate(ordered, ready);
    ElemsAppend(ordered, sid);
    ElemsAppend(ready', sid);
    ReadyIsFree(ordered, ready, remaining, deps, sid);
    OrderedMore(ordered, sid, deps);
    assert Elems(ordered') - {sid} == Elems(ordered);
    forall j | 0 <= j < |ids| ensures ids[j] in deps { ElemIn(ids, j); }
  }

  lemma ElemIn(ids: seq<string>, j: nat)
    requires j < |ids|
    ensures ids[j] in Elems(ids)
  {}

  /** A ready story has not been ordered, and all its dependencies have. */
  lemma ReadyIsFree(ordered: seq<string>, ready: seq<string>, remaining: Deps, deps: Deps, sid: string)
    requires Progress(ordered, ready, remaining, deps) && sid in ready
    ensures sid in deps && remaining[sid] == {} && sid !in Elems(ordered) && deps[sid] <= Elems(ordered)
  {
    hide Ordered;
    assert sid in Elems(ready);
    NothingLeft(deps[sid], Elems(ordered));
  }

  lemma NothingLeft(a: set<string>, b: set<string>)
    requires a - b == {}
    ensures a <= b
  {
    assert a == (a - b) + (a * b);
  }

  lemma TakeSeparate(ordered: seq<string>, ready: seq<string>)
    requires Separate(ordered, ready) && |ready| > 0
    ensures Separate(ordered + [ready[|ready| - 1]], ready[..|ready| - 1])
  {
    var sid := ready[|ready| - 1];
    assert sid in ready && sid !in ready[..|ready| - 1];
  }

  lemma OrderedMore(ordered: seq<string>, sid: string, deps: Deps)
    requires Ordered(ordered, deps) && sid in deps && deps[sid] <= Elems(ordered)
    ensures Ordered(ordered + [sid], deps)
  {
    hide Elems;
    var more := ordered + [sid];
    forall i | 0 <= i < |more| ensures more[i] in deps && deps[more[i]] <= Elems(more[..i]) {
      if i < |ordered| { assert more[..i] == ordered[..i]; } else { assert more[..i] == ordered; }
    }
  }

  /** One story looked at by the inner loop. */
  lemma ScanOne(ids: seq<string>, k: nat, sid: string, ordered: seq<string>, ready: seq<string>, remaining: Deps,
                deps: Deps)
    requires k < |ids| && Distinct(ids)
    requires Scanning(ids, k, sid, ordered, ready, remaining, deps)
    ensures var other := ids[k];
      var left := remaining[other] - {sid};
      if sid in remaining[other] then
        && (left == {} ==> other !in ordered)
        && Scanning(ids, k + 1, sid, ordered, if left == {} then ready + [other] else ready, remaining[other := left],
                    deps)
      else
        Scanning(ids, k + 1, sid, ordered, ready, remaining, deps)
  {
    var other := ids[k];
    assert sid in ordered;
    if sid in remaining[other] {
      var left := remaining[other] - {sid};
      var remaining' := remaining[other := left];
      assert other !in ordered && other !in ready;
      assert left == deps[other] - Elems(ordered);
      forall j | 0 <= j < |ids| && j != k ensures remaining'[ids[j]] == remaining[ids[j]] {
        assert ids[j] != ids[k] by { if j < k { assert ids[j] != ids[k]; } else { assert ids[k] != ids[j]; } }
      }
      if left == {} {
        ElemsAppend(ready, other);
      }
    } else {
      assert remaining[other] == deps[other] - Elems(ordered);
    }
  }

  lemma ScanDone(ids: seq<string>, sid: string, ordered: seq<string>, ready: seq<string>, remaining: Deps, deps: Deps)
    requires Scanning(ids, |ids|, sid, ordered, ready, remaining, deps) && Elems(ids) == deps.Keys
    ensures Progress(ordered, ready, remaining, deps)
  {
    forall id | id in deps ensures remaining[id] == deps[id] - Elems(ordered) {
      assert id in Elems(ids);
      var j :| 0 <= j < |ids| && ids[j] == id;
    }
  }

  /** The stories that wait for nothing, in their order. */
  method StartingStories(ids: seq<string>, deps: Deps) returns (ready: seq<string>)
    requires Distinct(ids) && Elems(ids) == deps.Keys
    ensures Progress([], ready, deps, deps)
  {
    hide Ordered, KnownDeps;
    ready := [];
    var i := 0;
    while i < |ids|
      invariant 0 <= i <= |ids|
      invariant Distinct(ready) && Elems(ready) <= Elems(ids[..i])
      invariant forall j :: 0 <= j < i ==> ids[j] in deps && (ids[j] in ready <==> deps[ids[j]] == {})
    {
      assert ids[i] in Elems(ids);
      assert ids[..i + 1] == ids[..i] + [ids[i]];
      ElemsAppend(ids[..i], ids[i]);
      assert ids[i] !in Elems(ids[..i]);
      assert forall x :: x in ready ==> x in Elems(ready);
      if deps[ids[i]] == {} {
        ElemsAppend(ready, ids[i]);
        ready := ready + [ids[i]];
      }
      i := i + 1;
    }
    assert ids[..|ids|] == ids;
    InitialProgress(ids, ready, deps);
  }

  /** The inner loop: `sid` is struck from every story that waits for it. */
  method Release(ids: seq<string>, sid: string, ordered: seq<string>, ready0: seq<string>, remaining0: Deps,
                 ghost deps: Deps)
    returns (ready: seq<string>, remaining: Deps)
    requires Distinct(ids) && Elems(ids) == deps.Keys
    requires Scanning(ids, 0, sid, ordered, ready0, remaining0, deps)
    ensures Progress(ordered, ready, remaining, deps)
  {
    hide Progress;
    ready, remaining := ready0, remaining0;
    var k := 0;
    while k < |ids|
      invariant 0 <= k <= |ids|
      invariant Scanning(ids, k, sid, ordered, ready, remaining, deps)
    {
      ScanOne(ids, k, sid, ordered, ready, remaining, deps);
      var other := ids[k];
      assert other in remaining;
      hide Scanning;
      if sid in remaining[other] {
        remaining := remaining[other := remaining[other] - {sid}];
        if remaining[other] == {} && other !in ordered {
          ready := ready + [other];
        }
      }
      k := k + 1;
    }
    ScanDone(ids, sid, ordered, ready, remaining, deps);
  }

  /** Kahn's worklist over the stories in their order: a topological order when there is one. */
  method WorklistOrder(ids: seq<string>, deps: Deps) returns (ordered: seq<string>)
    requires Distinct(ids) && Elems(ids) == deps.Keys && KnownDeps(deps)
    ensures Distinct(ordered) && Elems(ordered) <= deps.Keys && Ordered(ordered, deps)
    ensures |ordered| == |ids| <==> Acyclic(deps)
    ensures |ordered| == |ids| ==> Topological(ordered, deps)
  {
    hide Scanning, Ordered, KnownDeps, Elems, Distinct;
    var remaining := deps;
    var ready := StartingStories(ids, deps);
    ordered := [];
    DistinctSize(ids);
    while |ready| > 0
      invariant Progress(ordered, ready, remaining, deps)
      invariant |ordered| <= |ids|
      decreases |ids| - |ordered|
    {
      TakeReady(ids, ordered, ready, remaining, deps);
      var sid := ready[|ready| - 1];
      ready := ready[..|ready| - 1];
      ordered := ordered + [sid];
      ready, remaining := Release(ids, sid, ordered, ready, remaining, deps);
      NoLonger(ordered, deps.Keys);
    }
    FinishedWorklist(ids, ordered, remaining, deps);
  }

  lemma InitialProgress(ids: seq<string>, ready: seq<string>, deps: Deps)
    requires Elems(ids) == deps.Keys && Distinct(ready) && Elems(ready) <= Elems(ids)
    requires forall j :: 0 <= j < |ids| ==> ids[j] in deps && (ids[j] in ready <==> deps[ids[j]] == {})
    ensures Progress([], ready, deps, deps)
  {
    forall id | id in deps ensures id in ready <==> deps[id] == {} {
      assert id in Elems(ids);
      var j :| 0 <= j < |ids| && ids[j] == id;
    }
  }

  lemma NoLonger(ordered: seq<string>, keys: set<string>)
    requires Distinct(ordered) && Elems(ordered) <= keys
    ensures |ordered| <= |keys|
  {
    DistinctSize(ordered);
    Subset(Elems(ordered), keys);
  }

  lemma {:induction false} Subset(a: set<string>, b: set<string>)
    requires a <= b
    ensures |a| <= |b|
    ensures |a| == |b| ==> a == b
  {
    if a != {} {
      var x :| x in a;
      Subset(a - {x}, b - {x});
      assert a == (a - {x}) + {x} && b == (b - {x}) + {x};
    }
  }

  /** With nothing ready, what is left waits for itself. */
  lemma FinishedWorklist(ids: seq<string>, ordered: seq<string>, remaining: Deps, deps: Deps)
    requires Distinct(ids) && Elems(ids) == deps.Keys && KnownDeps(deps)
    requires Progress(ordered, [], remaining, deps)
    ensures Distinct(ordered) && Elems(ordered) <= deps.Keys
    ensures |ordered| == |ids| <==> Acyclic(deps)
    ensures |ordered| == |ids| ==> Topological(ordered, deps)
  {
    DistinctSize(ids);
    DistinctSize(ordered);
    Subset(Elems(ordered), deps.Keys);
    if Acyclic(deps) {
      var order :| Topological(order, deps);
      var stuck := deps.Keys - Elems(ordered);
      forall id | id in stuck ensures deps[id] * stuck != {} {
        assert remaining[id] != {};
        var d :| d in remaining[id];
        assert d in deps[id] * stuck;
      }
      StuckSetIsEmpty(stuck, order, deps, |order|);
      assert order[..|order|] == order;
      assert stuck == {};
      assert Elems(ordered) == deps.Keys;
    }
    if |ordered| == |ids| {
      assert Topological(ordered, deps);
    }
  }

  // ---------- validation ----------

  function StripAll(names: seq<string>): (r: seq<string>)
    ensures |r| == |names| && forall i :: 0 <= i < |r| ==> r[i] == Strip(names[i])
  {
    seq(|names|, i requires 0 <= i < |names| => Strip(names[i]))
  }

  predicate RawOk(raw: RawStory) {
    && Identifier(Strip(raw.id))
    && Strip(raw.acceptance) != ""
    && forall i :: 0 <= i < |raw.dependsOn| ==> Identifier(Strip(raw.dependsOn[i]))
  }

  /** The story as it is stored: trimmed, ready when it depends on nothing. */
  function Stored(raw: RawStory): Story {
    var id := Strip(raw.id);
    var title := if raw.title.None? || raw.title.value == "" then id else raw.title.value;
    Story(id, Strip(title), StripAll(raw.dependsOn), Strip(raw.acceptance),
          if raw.dependsOn == [] then Ready else Pending, None, None, [], 0)
  }

  function StoredAll(raws: seq<RawStory>): (r: seq<Story>)
    ensures |r| == |raws| && forall i :: 0 <= i < |r| ==> r[i] == Stored(raws[i])
  {
    seq(|raws|, i requires 0 <= i < |raws| => Stored(raws[i]))
  }

  function Ids(stories: seq<Story>): (r: seq<string>)
    ensures |r| == |stories| && forall i :: 0 <= i < |r| ==> r[i] == stories[i].id
  {
    seq(|stories|, i requires 0 <= i < |stories| => stories[i].id)
  }

  /** The dictionary of a list of stories; a later story replaces an earlier one of the same id. */
  function ById(stories: seq<Story>): (m: map<string, Story>)
    ensures m.Keys == Elems(Ids(stories))
    ensures forall id :: id in m ==> m[id].id == id && m[id] in stories
    ensures Distinct(Ids(stories)) ==> forall i :: 0 <= i < |stories| ==> m[stories[i].id] == stories[i]
  {
    if |stories| == 0 then map[]
    else
      var last := stories[|stories| - 1];
      var init := stories[..|stories| - 1];
      var before := ById(init);
      assert stories == init + [last];
      ByIdKeys(init, last, before, before[last.id := last]);
      ByIdValues(init, last, before, before[last.id := last]);
      before[last.id := last]
  }

  lemma ByIdKeys(init: seq<Story>, last: Story, before: map<string, Story>, after: map<string, Story>)
    requires before.Keys == Elems(Ids(init)) && after == before[last.id := last]
    requires forall id :: id in before ==> before[id].id == id && before[id] in init
    ensures after.Keys == Elems(Ids(init + [last]))
    ensures forall id :: id in after ==> after[id].id == id && after[id] in init + [last]
  {
    hide Elems;
    assert Ids(init + [last]) == Ids(init) + [last.id];
    ElemsAppend(Ids(init), last.id);
  }

  lemma ByIdValues(init: seq<Story>, last: Story, before: map<string, Story>, after: map<string, Story>)
    requires before.Keys == Elems(Ids(init)) && after == before[last.id := last]
    requires Distinct(Ids(init)) ==> forall i :: 0 <= i < |init| ==> before[init[i].id] == init[i]
    ensures var all := init + [last];
      Distinct(Ids(all)) ==> forall i :: 0 <= i < |all| ==> all[i].id in after && after[all[i].id] == all[i]
  {
    var all := init + [last];
    if Distinct(Ids(all)) {
      assert Distinct(Ids(init)) by {
        forall i, j | 0 <= i < j < |init| ensures Ids(init)[i] != Ids(init)[j] {
          assert Ids(all)[i] != Ids(all)[j];
        }
      }
      forall i | 0 <= i < |init|
        ensures init[i].id in before && before[init[i].id] == init[i] && init[i].id != last.id
      {
        assert Ids(init)[i] in Elems(Ids(init));
        assert Ids(all)[i] != Ids(all)[|init|];
      }
    }
  }

  function DepsOf(stories: map<string, Story>): Deps {
    map id | id in stories :: Elems(stories[id].dependsOn)
  }

  /** The lists of stories that make a goal. */
  ghost predicate ValidStories(raws: seq<RawStory>) {
    && |raws| > 0
    && (forall i :: 0 <= i < |raws| ==> RawOk(raws[i]))
    && Distinct(Ids(StoredAll(raws)))
    && KnownDeps(DepsOf(ById(StoredAll(raws))))
    && Acyclic(DepsOf(ById(StoredAll(raws))))
  }

  /** One more story in the dictionary under construction. */
  lemma NextStory(all: seq<Story>, i: nat)
    requires i < |all| && Distinct(Ids(all[..i]))
    ensures all[i].id in ById(all[..i]) <==> !Distinct(Ids(all[..i + 1]))
    ensures ById(all[..i + 1]) == ById(all[..i])[all[i].id := all[i]]
  {
    var before, after := Ids(all[..i]), Ids(all[..i + 1]);
    assert after == before + [all[i].id];
    assert all[..i + 1][..i] == all[..i];
    if all[i].id in before {
      var j :| 0 <= j < i && before[j] == all[i].id;
      assert after[j] == after[i];
    } else {
      forall j, k | 0 <= j < k < |after| ensures after[j] != after[k] {
        if k < i { assert before[j] != before[k]; }
      }
    }
  }

  lemma {:induction false} DistinctPrefix(all: seq<Story>, i: nat)
    requires i <= |all| && !Distinct(Ids(all[..i]))
    ensures !Distinct(Ids(all))
  {
    var j, k :| 0 <= j < k < i && Ids(all[..i])[j] == Ids(all[..i])[k];
    assert Ids(all)[j] == Ids(all)[k];
  }

  /** The stories before i are in order. */
  predicate GoodUpTo(raws: seq<RawStory>, i: nat)
    requires i <= |raws|
  {
    (forall j :: 0 <= j < i ==> RawOk(raws[j])) && Distinct(Ids(StoredAll(raws[..i])))
  }

  /** What is wrong with story i, looked at in the order of the code. */
  predicate Fault(raws: seq<RawStory>, i: nat, error: GraphError)
    requires i < |raws|
  {
    var raw, id := raws[i], Strip(raws[i].id);
    var again := exists j :: 0 <= j < i && Strip(raws[j].id) == id;
    error == if !Identifier(id) then BadIdentifier else if again then DuplicateStory
             else if Strip(raw.acceptance) == "" then MissingAcceptance else BadIdentifier
  }

  /** The first story that is not in order decides. */
  predicate FirstFault(raws: seq<RawStory>, error: GraphError) {
    exists i :: 0 <= i < |raws| && GoodUpTo(raws, i) && !GoodUpTo(raws, i + 1) && Fault(raws, i, error)
  }

  /** The first loop: every story checked and stored under its id. */
  method CollectStories(raws: seq<RawStory>) returns (error: Option<GraphError>, byId: map<string, Story>)
    ensures error.None? <==> (forall i :: 0 <= i < |raws| ==> RawOk(raws[i])) && Distinct(Ids(StoredAll(raws)))
    ensures error.None? ==> byId == ById(StoredAll(raws))
    ensures error.Some? ==> FirstFault(raws, error.value)
  {
    hide Strip, Identifier, Stored, ById, Distinct, Ids, Elems, FirstFault;
    ghost var all := StoredAll(raws);
    byId := map[];
    var i := 0;
    assert Distinct(Ids(all[..0])) && ById(all[..0]) == map[] by { EmptyList(all[..0]); }
    while i < |raws|
      invariant 0 <= i <= |raws|
      invariant forall j :: 0 <= j < i ==> RawOk(raws[j])
      invariant Distinct(Ids(all[..i]))
      invariant byId == ById(all[..i])
    {
      var raw := raws[i];
      var id := Strip(raw.id);
      StoredId(raw);
      NextStory(all, i);
      Faults(raws, i);
      if !Identifier(id) { return Some(BadIdentifier), byId; }
      if id in byId { return Some(DuplicateStory), byId; }
      if Strip(raw.acceptance) == "" { return Some(MissingAcceptance), byId; }
      if exists k :: 0 <= k < |raw.dependsOn| && !Identifier(Strip(raw.dependsOn[k])) {
        return Some(BadIdentifier), byId;
      }
      byId := byId[id := Stored(raw)];
      i := i + 1;
    }
    assert all[..|raws|] == all;
    error := None;
  }

  /** What is found wrong with a story behind good ones is the first fault. */
  lemma Faults(raws: seq<RawStory>, i: nat)
    requires i < |raws| && (forall j :: 0 <= j < i ==> RawOk(raws[j])) && Distinct(Ids(StoredAll(raws)[..i]))
    ensures var raw, id, again := raws[i], Strip(raws[i].id), Strip(raws[i].id) in ById(StoredAll(raws)[..i]);
      && (!Identifier(id) ==> FirstFault(raws, BadIdentifier))
      && (Identifier(id) && again ==> FirstFault(raws, DuplicateStory) && !Distinct(Ids(StoredAll(raws))))
      && (Identifier(id) && !again && Strip(raw.acceptance) == "" ==> FirstFault(raws, MissingAcceptance))
      && (Identifier(id) && !again && Strip(raw.acceptance) != "" && !RawOk(raw) ==> FirstFault(raws, BadIdentifier))
  {
    hide Strip, Identifier, Stored, ById, Distinct, Ids, Elems;
    var all, id := StoredAll(raws), Strip(raws[i].id);
    StoredId(raws[i]);
    SoFar(raws, i);
    NextStory(all, i);
    if id in ById(all[..i]) { DistinctPrefix(all, i + 1); }
    assert GoodUpTo(raws, i);
    assert !RawOk(raws[i]) || id in ById(all[..i]) ==> !GoodUpTo(raws, i + 1);
    if !Identifier(id) {
      assert Fault(raws, i, BadIdentifier);
    } else if id in ById(all[..i]) {
      assert Fault(raws, i, DuplicateStory);
    } else if Strip(raws[i].acceptance) == "" {
      assert Fault(raws, i, MissingAcceptance);
    } else if !RawOk(raws[i]) {
      assert Fault(raws, i, BadIdentifier);
    }
  }

  /** The stories stored so far, and the ids they stand under. */
  lemma SoFar(raws: seq<RawStory>, i: nat)
    requires i < |raws|
    ensures StoredAll(raws[..i]) == StoredAll(raws)[..i] && StoredAll(raws[..i + 1]) == StoredAll(raws)[..i + 1]
    ensures forall id :: id in ById(StoredAll(raws)[..i]) <==> exists j :: 0 <= j < i && Strip(raws[j].id) == id
  {
    hide Strip, Identifier, ById, Distinct;
    var ids := Ids(StoredAll(raws)[..i]);
    forall j | 0 <= j < i ensures ids[j] == Strip(raws[j].id) { StoredId(raws[j]); }
    forall id ensures id in Elems(ids) <==> exists j :: 0 <= j < i && Strip(raws[j].id) == id {
      if id in Elems(ids) {
        var j :| 0 <= j < |ids| && ids[j] == id;
      }
      if exists j :: 0 <= j < i && Strip(raws[j].id) == id {
        var j :| 0 <= j < i && Strip(raws[j].id) == id;
        assert ids[j] in Elems(ids);
      }
    }
  }

  lemma UnknownExactly(deps: Deps)
    ensures !KnownDeps(deps) <==> exists id, dep :: id in deps && dep in deps[id] && dep !in deps
  {
    if !KnownDeps(deps) {
      var id :| id in deps && !(deps[id] <= deps.Keys);
      var dep :| dep in deps[id] && dep !in deps.Keys;
    }
  }

  lemma EmptyList(none: seq<Story>)
    requires none == []
    ensures Distinct(Ids(none)) && ById(none) == map[]
  {}

  /**
   `_validate_story_graph`: accepts exactly the valid lists and stores the stories trimmed; a refusal names no
   stories, the first fault of a story, a dependency that is no story, or a cycle, in this order.
   */
  method ValidateStoryGraph(raws: seq<RawStory>) returns (r: Graph)
    ensures r.Accepted? <==> ValidStories(raws)
    ensures r.Accepted? ==> r.stories == StoredAll(raws)
    ensures r.Rejected? ==>
      if |raws| == 0 then r.error == NoStories
      else if !GoodUpTo(raws, |raws|) then FirstFault(raws, r.error)
      else
        var deps := DepsOf(ById(StoredAll(raws)));
        if exists id, dep :: id in deps && dep in deps[id] && dep !in deps then r.error == UnknownDependency
        else r.error == Cycle && !Acyclic(deps)
  {
    hide RawOk, Topological, KnownDeps, Stored, Ids, Distinct, Elems, Ordered;
    if |raws| == 0 { return Rejected(NoStories); }
    var error, byId := CollectStories(raws);
    assert raws[..|raws|] == raws;
    if error.Some? { return Rejected(error.value); }
    var ids := Ids(StoredAll(raws));
    var deps := DepsOf(byId);
    UnknownExactly(deps);
    if !KnownDeps(deps) { return Rejected(UnknownDependency); }
    var ordered := WorklistOrder(ids, deps);
    if |ordered| != |ids| { return Rejected(Cycle); }
    r := Accepted(StoredAll(raws));
  }

  lemma StoredId(raw: RawStory)
    ensures Stored(raw).id == Strip(raw.id)
  {}
}
