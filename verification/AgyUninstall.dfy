/** The durable uninstall: it commits only a clean machine, and gets there through any kills. */
module AgyUninstall {
  import opened Options
  import opened AgyRegistry
  import opened AgyMachine
  import opened AgyRollback
  import AgyInstall

  /** The identities the caller wants removed. */
  datatype Ids = Ids(digest: string, registry: Json, mcp: Json)

  datatype Commands = Commands(removeMcp: Machine -> Reply, uninstall: Uninstall)

  /** Killed, returned, or left by an exception. */
  datatype UOutcome = UKilled | UReturned(done: bool) | URaised

  // ---------- reading ----------

  function CurrentRegistry(m: Machine): Option<Json> { ListedRow(m.files.imports) }
  function CurrentMcp(m: Machine): Option<Json> { McpEntry(m.files.mcp) }

  predicate ReceiptIs(m: Machine, ids: Ids) {
    && m.files.receipt.Some? && m.files.receipt.value.Readable?
    && var r := m.files.receipt.value.receipt;
       r.digest == ids.digest && r.registry == ids.registry && r.mcp == ids.mcp
  }

  /** Nothing of the plugin is left. */
  predicate Clean(m: Machine) {
    m.target == NoTree && CurrentRegistry(m) == Some(JNull) && CurrentMcp(m) == Some(JNull) && m.files.receipt == None
  }

  predicate JournalIs(j: Journal, ids: Ids) {
    j.priorTree.Tree? && j.priorTree.digest == Some(ids.digest) && j.priorRegistry == ids.registry
    && j.priorMcp == ids.mcp
  }

  // ---------- the transaction ----------

  const UNINSTALL_STEPS := 10

  datatype StageResult = Go(world: World) | Stop(world: World, outcome: UOutcome)

  function MarkPhase(w: World, phase: Phase): World { w.(journal := w.journal.(phase := phase)) }

  /**
   `seal_recovery_post_state` with its three demands; it raises where an identity cannot be read or a demand
   fails.
   */
  function SealStage(w: World, demandAbsent: bool): StageResult {
    var m := w.machine;
    match (CurrentRegistry(m), CurrentMcp(m))
    case (Some(registry), Some(mcp)) =>
      if demandAbsent && !(m.target == NoTree && registry == JNull && mcp == JNull) then Stop(w, URaised)
      else Go(w.(journal := w.journal.(post := Sealed(m.target, registry, mcp, m.files))))
    case _ => Stop(w, URaised)
  }

  /** A refused step: the rollback runs, and the uninstall answers false either way. */
  function GiveUp(w: World, agy: Commands, expected: Json): StageResult {
    Stop(Rollback(w, agy.uninstall, expected, false, STAGES).0, UReturned(false))
  }

  /** The k-th durable step with the checks before it. */
  function UStage(w: World, agy: Commands, expected: Json, ids: Ids, k: nat): StageResult
    requires k < UNINSTALL_STEPS
  {
    var m := w.machine;
    if k == 0 then
      match CurrentMcp(m)
      case None => Stop(w, URaised)
      case Some(mcp) => if mcp != ids.mcp && mcp != JNull then Stop(w, UReturned(false))
        else Go(MarkPhase(w, RemovingMcp))
    else if k == 1 then
      if CurrentMcp(m) == Some(ids.mcp) then
        var reply := agy.removeMcp(m);
        var after := w.(machine := reply.machine);
        if !reply.ok then GiveUp(after, agy, expected) else Go(after)
      else Go(w)
    else if k == 2 then SealStage(w, false)
    else if k == 3 then
      match CurrentRegistry(m)
      case None => Stop(w, URaised)
      case Some(registry) =>
        if (Digest(m.target) == Some(ids.digest) && registry == ids.registry)
            || (Digest(m.target) == None && registry == JNull)
        then Go(MarkPhase(w, RemovingPlugin)) else Stop(w, UReturned(false))
    else if k == 4 then
      if Digest(m.target) == Some(ids.digest) then
        var reply := agy.uninstall(m);
        var after := w.(machine := reply.machine);
        if !reply.ok || reply.machine.target.Tree? then GiveUp(after, agy, expected) else Go(after)
      else Go(w)
    else if k == 5 then SealStage(w, false)
    else if k == 6 then Go(MarkPhase(w, RemovingReceipt))
    else if k == 7 then
      if m.files.receipt.None? then Go(w)
      else if ReceiptIs(m, ids) then Go(w.(machine := m.(files := m.files.(receipt := None))))
      else GiveUp(w, agy, expected)
    else if k == 8 then SealStage(w, true)
    else
      match (CurrentRegistry(m), CurrentMcp(m))
      case (Some(registry), Some(mcp)) =>
        if m.target != NoTree || registry != JNull || mcp != JNull || m.files.receipt != None
        then GiveUp(w, agy, expected)
        else Go(w.(journal := w.journal.(committed := true)))
      case _ => Stop(w, URaised)
  }

  function UStages(w: World, agy: Commands, expected: Json, ids: Ids, k: nat, budget: nat): (World, UOutcome)
    requires k <= UNINSTALL_STEPS
    decreases UNINSTALL_STEPS - k
  {
    if k == UNINSTALL_STEPS then (w, UReturned(true))
    else if budget == 0 then (w, UKilled)
    else
      match UStage(w, agy, expected, ids, k)
      case Stop(w', outcome) => (w', outcome)
      case Go(w') => UStages(w', agy, expected, ids, k + 1, budget - 1)
  }

  /** `committed_owned_uninstall_matches` */
  predicate CommittedMatches(w: World, ids: Ids) {
    var m, j := w.machine, w.journal;
    && j.committed && JournalIs(j, ids) && j.post.Sealed?
    && j.post.target == NoTree && j.post.registry == JNull && j.post.mcp == JNull
    && Clean(m) && m.files == j.post.files
  }

  /** `uninstall_owned_plugin` from a durable journal on, keeping a committed journal. */
  function UninstallRun(w: World, agy: Commands, expected: Json, ids: Ids, budget: nat): (World, UOutcome) {
    if w.journal.committed then (w, UReturned(CommittedMatches(w, ids)))
    else if !JournalIs(w.journal, ids) then (w, UReturned(false))
    else UStages(w, agy, expected, ids, 0, budget)
  }

  /** The first run: every identity must be the expected one before the journal is written. */
  function FirstRun(m: Machine, ids: Ids): Option<World> {
    if m.target.Tree? && m.target.digest == Some(ids.digest) && CurrentRegistry(m) == Some(ids.registry)
       && CurrentMcp(m) == Some(ids.mcp) && ReceiptIs(m, ids)
    then Some(World(m, Journal(m.files, m.target, ids.registry, ids.mcp, NoPhase, None, Unsealed, false)))
    else None
  }

  // ---------- what is committed is clean ----------

  lemma {:induction false} RollbackNeverCommits(w: World, plan: Plan, agyUninstall: Uninstall, k: nat, budget: nat)
    requires k <= STAGES
    ensures RunStages(w, plan, agyUninstall, k, budget).0.journal.committed == w.journal.committed
    decreases STAGES - k
  {
    hide RestoreRegistry, RestoreReceipt, IncompleteFresh;
    if k < STAGES && budget > 0 {
      match Stage(w, plan, agyUninstall, k)
      case Failed(_) =>
      case Taken(w') => RollbackNeverCommits(w', plan, agyUninstall, k + 1, budget - 1);
    }
  }

  lemma GiveUpNeverCommits(w: World, agy: Commands, expected: Json)
    requires !w.journal.committed
    ensures !GiveUp(w, agy, expected).world.journal.committed
  {
    hide RunStages, Gate, ListedRow, McpEntry, OwnedMatch, MakePlan;
    RollbackNeverCommits(w, MakePlan(w.machine, w.journal), agy.uninstall, 0, STAGES);
  }

  /** Whatever the commands do: a journal that has become committed stands beside a clean machine. */
  lemma {:induction false} CommittedIsClean(w: World, agy: Commands, expected: Json, ids: Ids, k: nat, budget: nat)
    requires k <= UNINSTALL_STEPS && (w.journal.committed ==> k == UNINSTALL_STEPS && Clean(w.machine))
    ensures var t := UStages(w, agy, expected, ids, k, budget).0;
      t.journal.committed ==> Clean(t.machine)
    ensures var (t, outcome) := UStages(w, agy, expected, ids, k, budget);
      k < UNINSTALL_STEPS ==> (outcome == UReturned(true) <==> t.journal.committed)
    decreases UNINSTALL_STEPS - k
  {
    hide ListedRow, McpEntry, GiveUp, ReceiptIs;
    if k < UNINSTALL_STEPS && budget > 0 {
      StageCommits(w, agy, expected, ids, k);
      match UStage(w, agy, expected, ids, k)
      case Stop(_, _) =>
      case Go(w') => CommittedIsClean(w', agy, expected, ids, k + 1, budget - 1);
    }
  }

  lemma StageCommits(w: World, agy: Commands, expected: Json, ids: Ids, k: nat)
    requires k < UNINSTALL_STEPS && !w.journal.committed
    ensures match UStage(w, agy, expected, ids, k)
      case Stop(t, outcome) => !t.journal.committed && outcome != UReturned(true)
      case Go(t) => t.journal.committed <==> k == UNINSTALL_STEPS - 1
    ensures UStage(w, agy, expected, ids, k).Go? && k == UNINSTALL_STEPS - 1 ==>
      Clean(UStage(w, agy, expected, ids, k).world.machine)
  {
    hide ListedRow, McpEntry, ReceiptIs, Rollback;
    GiveUpNeverCommits(w, agy, expected);
    GiveUpNeverCommits(w.(machine := agy.uninstall(w.machine).machine), agy, expected);
    GiveUpNeverCommits(w.(machine := agy.removeMcp(w.machine).machine), agy, expected);
  }

  /** `committed` is never recorded while the tree, a registry row or the receipt remains. */
  lemma NeverCommitsEarly(w: World, agy: Commands, expected: Json, ids: Ids, budget: nat)
    requires !w.journal.committed
    ensures var (t, outcome) := UninstallRun(w, agy, expected, ids, budget);
      && (t.journal.committed ==> Clean(t.machine))
      && (outcome == UReturned(true) <==> t.journal.committed)
  {
    hide UStages, Clean;
    CommittedIsClean(w, agy, expected, ids, 0, budget);
  }

  // ---------- kills ----------

  /** `agy mcp remove`: the server row goes, everything else stays. */
  predicate McpRemoved(m: Machine, after: Machine) {
    && WellFormed(after.files.mcp, McpConfig) && McpEntry(after.files.mcp) == Some(JNull)
    && after == m.(files := m.files.(mcp := after.files.mcp)) && SameOthers(m.files, after.files)
  }

  ghost predicate CommandsWork(agy: Commands) {
    && UninstallWorks(agy.uninstall)
    && (forall m: Machine :: WellFormed(m.files.mcp, McpConfig) ==>
        agy.removeMcp(m).ok && McpRemoved(m, agy.removeMcp(m).machine))
  }

  /** A machine on its way out: each piece is still the expected one or already gone. */
  predicate Leaving(w: World, ids: Ids) {
    var m := w.machine;
    && !w.journal.committed && JournalIs(w.journal, ids) && ids.registry != JNull && ids.mcp != JNull
    && WellFormed(m.files.imports, ImportManifest) && WellFormed(m.files.config, ConfigJson)
    && WellFormed(m.files.mcp, McpConfig)
    && (CurrentMcp(m) == Some(ids.mcp) || CurrentMcp(m) == Some(JNull))
    && ((m.target.Tree? && m.target.digest == Some(ids.digest) && CurrentRegistry(m) == Some(ids.registry))
        || (m.target == NoTree && CurrentRegistry(m) == Some(JNull)))
    && (m.files.receipt.None? || ReceiptIs(m, ids))
  }

  /** What the steps before k have removed. */
  predicate Gone(w: World, k: nat) {
    && (k > 1 ==> CurrentMcp(w.machine) == Some(JNull))
    && (k > 4 ==> w.machine.target == NoTree && CurrentRegistry(w.machine) == Some(JNull))
    && (k > 7 ==> w.machine.files.receipt == None)
    && (k > 8 ==> w.journal.post == Sealed(NoTree, JNull, JNull, w.machine.files))
  }

  /** The journals differ in nothing but phase, seal and commit. */
  predicate SameTransaction(a: Journal, b: Journal) {
    b == a.(phase := b.phase, post := b.post, committed := b.committed)
  }

  /** Steps that only write the journal. */
  lemma LeavingMark(w: World, agy: Commands, expected: Json, ids: Ids, k: nat)
    requires Leaving(w, ids) && Gone(w, k) && k in {0, 2, 3, 5, 6, 8, 9}
    ensures UStage(w, agy, expected, ids, k).Go?
    ensures var t := UStage(w, agy, expected, ids, k).world;
      && Gone(t, k + 1) && t.machine == w.machine && SameTransaction(w.journal, t.journal)
      && (k < 9 ==> Leaving(t, ids)) && (k == 9 ==> CommittedMatches(t, ids) && AgyInstall.Editable(t.machine.files))
  {
    hide ListedRow, McpEntry, WellFormed, GiveUp, ReceiptIs;
  }

  lemma LeavingMcp(w: World, agy: Commands, expected: Json, ids: Ids)
    requires CommandsWork(agy) && Leaving(w, ids) && Gone(w, 1)
    ensures UStage(w, agy, expected, ids, 1).Go?
    ensures var t := UStage(w, agy, expected, ids, 1).world;
      Gone(t, 2) && SameOthers(w.machine.files, t.machine.files) && Leaving(t, ids) && w.journal == t.journal
  {
    hide ListedRow, McpEntry, WellFormed, Others, GiveUp, UninstallWorks;
    assert CurrentMcp(w.machine) == Some(ids.mcp) ==> McpRemoved(w.machine, agy.removeMcp(w.machine).machine);
  }

  lemma LeavingPlugin(w: World, agy: Commands, expected: Json, ids: Ids)
    requires CommandsWork(agy) && Leaving(w, ids) && Gone(w, 4)
    ensures UStage(w, agy, expected, ids, 4).Go?
    ensures var t := UStage(w, agy, expected, ids, 4).world;
      Gone(t, 5) && SameOthers(w.machine.files, t.machine.files) && Leaving(t, ids) && w.journal == t.journal
  {
    hide ListedRow, McpEntry, WellFormed, Others, GiveUp, OwnedRow, McpRemoved;
    var after := agy.uninstall(w.machine).machine;
    assert Uninstalled(w.machine, after);
    ListedIsOwned(after.files.imports);
  }

  lemma LeavingReceipt(w: World, agy: Commands, expected: Json, ids: Ids)
    requires Leaving(w, ids) && Gone(w, 7)
    ensures UStage(w, agy, expected, ids, 7).Go?
    ensures var t := UStage(w, agy, expected, ids, 7).world;
      Gone(t, 8) && SameOthers(w.machine.files, t.machine.files) && Leaving(t, ids) && w.journal == t.journal
  {
    hide ListedRow, McpEntry, WellFormed, Others, GiveUp;
  }

  lemma LeavingStage(w: World, agy: Commands, expected: Json, ids: Ids, k: nat)
    requires CommandsWork(agy) && Leaving(w, ids) && Gone(w, k) && k < UNINSTALL_STEPS
    ensures UStage(w, agy, expected, ids, k).Go?
    ensures var t := UStage(w, agy, expected, ids, k).world;
      && Gone(t, k + 1) && SameOthers(w.machine.files, t.machine.files) && SameTransaction(w.journal, t.journal)
      && (k < UNINSTALL_STEPS - 1 ==> Leaving(t, ids))
      && (k == UNINSTALL_STEPS - 1 ==> CommittedMatches(t, ids) && AgyInstall.Editable(t.machine.files))
  {
    hide Leaving, Gone, CommittedMatches, UStage, CommandsWork, Others, AgyInstall.Editable;
    if k == 1 {
      LeavingMcp(w, agy, expected, ids);
    } else if k == 4 {
      LeavingPlugin(w, agy, expected, ids);
    } else if k == 7 {
      LeavingReceipt(w, agy, expected, ids);
    } else {
      LeavingMark(w, agy, expected, ids, k);
    }
  }

  lemma {:induction false} LeavingRun(w: World, agy: Commands, expected: Json, ids: Ids, k: nat, budget: nat)
    requires CommandsWork(agy) && k <= UNINSTALL_STEPS && Gone(w, k)
    requires if k < UNINSTALL_STEPS then Leaving(w, ids)
             else CommittedMatches(w, ids) && AgyInstall.Editable(w.machine.files)
    ensures var (t, outcome) := UStages(w, agy, expected, ids, k, budget);
      && SameOthers(w.machine.files, t.machine.files) && SameTransaction(w.journal, t.journal)
      && (budget >= UNINSTALL_STEPS - k ==>
            outcome == UReturned(true) && CommittedMatches(t, ids) && AgyInstall.Editable(t.machine.files))
      && (budget < UNINSTALL_STEPS - k ==> outcome == UKilled && Leaving(t, ids))
    decreases UNINSTALL_STEPS - k
  {
    hide Leaving, Gone, CommittedMatches, UStage, CommandsWork, Others, AgyInstall.Editable;
    if k < UNINSTALL_STEPS && budget > 0 {
      LeavingStage(w, agy, expected, ids, k);
      LeavingRun(UStage(w, agy, expected, ids, k).world, agy, expected, ids, k + 1, budget - 1);
    }
  }

  /** Kills of the uninstall, with edits of others in between while it is not committed. */
  ghost predicate KilledUninstalls(w: World, agy: Commands, expected: Json, ids: Ids, kills: seq<Kill>, end: World)
    decreases |kills|
  {
    if |kills| == 0 then end == w
    else
      var (t, outcome) := UninstallRun(w, agy, expected, ids, kills[0].budget);
      && outcome == UKilled && ForeignEdit(t.machine, kills[0].edited)
      && KilledUninstalls(t.(machine := kills[0].edited), agy, expected, ids, kills[1..], end)
  }

  lemma EditLeaves(w: World, ids: Ids, after: Machine)
    requires Leaving(w, ids) && ForeignEdit(w.machine, after)
    ensures Leaving(w.(machine := after), ids)
  {
    hide ListedRow, McpEntry, WellFormed;
  }

  /**
   However often the uninstall is killed between its steps, the run with the same identities that is
   not killed commits, on a clean machine; running it again only confirms that.
   */
  lemma {:induction false} UninstallSurvivesKills(w: World, agy: Commands, expected: Json, ids: Ids, kills: seq<Kill>,
                                                  end: World)
    requires CommandsWork(agy) && Leaving(w, ids) && KilledUninstalls(w, agy, expected, ids, kills, end)
    ensures var (t, outcome) := UninstallRun(end, agy, expected, ids, UNINSTALL_STEPS);
      && outcome == UReturned(true) && t.journal.committed && Clean(t.machine)
      && SameOthers(end.machine.files, t.machine.files) && SameTransaction(w.journal, t.journal)
      && t.journal.post == Sealed(NoTree, JNull, JNull, t.machine.files) && AgyInstall.Editable(t.machine.files)
      && UninstallRun(t, agy, expected, ids, UNINSTALL_STEPS) == (t, UReturned(true))
    decreases |kills|
  {
    hide UStages, CommandsWork, ForeignEdit, Gone, Others, ListedRow, McpEntry, WellFormed, AgyInstall.Editable;
    assert Gone(w, 0) by { NothingGone(w); }
    LeavingRun(w, agy, expected, ids, 0, UNINSTALL_STEPS);
    if |kills| > 0 {
      LeavingRun(w, agy, expected, ids, 0, kills[0].budget);
      var t := UninstallRun(w, agy, expected, ids, kills[0].budget).0;
      EditLeaves(t, ids, kills[0].edited);
      UninstallSurvivesKills(t.(machine := kills[0].edited), agy, expected, ids, kills[1..], end);
    }
  }

  lemma NothingGone(w: World)
    ensures Gone(w, 0)
  {}

  /** A first run that gets past its checks is on its way out. */
  lemma FirstRunLeaves(m: Machine, ids: Ids)
    requires FirstRun(m, ids).Some? && ids.registry != JNull && ids.mcp != JNull && AgyInstall.Editable(m.files)
    ensures Leaving(FirstRun(m, ids).value, ids)
  {
    hide ListedRow, McpEntry, WellFormed;
  }

  function DirectRemoveMcp(m: Machine): Reply {
    if WellFormed(m.files.mcp, McpConfig)
    then Reply(m.(files := m.files.(mcp := AgyInstall.PutIn(m.files.mcp, McpConfig, JNull))), true) else Reply(m, false)
  }

  lemma CommandsCanWork()
    ensures CommandsWork(Commands(DirectRemoveMcp, AgyInstall.DirectUninstall))
  {
    hide WellFormed, OwnedRow, Others, McpEntry, UninstallWorks, AgyInstall.PutIn;
    AgyInstall.DirectUninstallWorks();
    forall m: Machine | WellFormed(m.files.mcp, McpConfig) ensures McpRemoved(m, DirectRemoveMcp(m).machine) {
      AgyInstall.PutInFacts(m.files.mcp, McpConfig, JNull);
    }
  }
}
