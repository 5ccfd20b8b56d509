/**
 A first-time install rolled back under kills: wherever the rollback is killed, and however others
 edit their own rows in between, running it again ends with the state of before.
 */
module AgyRollback {
  import opened Options
  import opened AgyRegistry
  import opened AgyMachine

  // ---------- well-formed registries and contracts ----------

  /** The registry parses and has a section that can be edited. */
  predicate WellFormed(f: File, name: Registry) {
    && Content(f).Some? && Content(f).value.JObj?
    && (if name == ImportManifest then GetSection(Content(f).value, name).JArr?
        else GetSection(Content(f).value, name).JObj?)
  }

  /**
   A recorded registry that can be put back: it parses without the help for empty files, and its row is
   unambiguous.
   */
  predicate Recorded(f: File, name: Registry) {
    WellFormed(f, name) && PriorContent(f) == Content(f) && OwnedRow(f, name).Some?
  }

  function Others(f: File, name: Registry): Option<Json> {
    match Content(f)
    case None => None
    case Some(payload) => WithoutOwned(payload, name)
  }

  /** Everybody else's part of the registries is the same. */
  predicate SameOthers(a: Files, b: Files) {
    && Others(a.imports, ImportManifest) == Others(b.imports, ImportManifest)
    && Others(a.config, ConfigJson) == Others(b.config, ConfigJson)
    && Others(a.mcp, McpConfig) == Others(b.mcp, McpConfig)
  }

  /** `agy plugin uninstall`: the tree and its import row go, other rows and the other files stay. */
  predicate Uninstalled(m: Machine, after: Machine) {
    && after.target == NoTree
    && WellFormed(after.files.imports, ImportManifest) && OwnedRow(after.files.imports, ImportManifest) == Some(JNull)
    && WellFormed(after.files.config, ConfigJson)
    && after.files.mcp == m.files.mcp && after.files.receipt == m.files.receipt
    && SameOthers(m.files, after.files)
  }

  ghost predicate UninstallWorks(agyUninstall: Uninstall) {
    forall m: Machine :: WellFormed(m.files.imports, ImportManifest) && WellFormed(m.files.config, ConfigJson)
      ==> agyUninstall(m).ok && Uninstalled(m, agyUninstall(m).machine)
  }

  /** Others edit the registries, keeping them well-formed and leaving this plugin's rows and files alone. */
  predicate ForeignEdit(m: Machine, after: Machine) {
    && after.target == m.target && after.files.receipt == m.files.receipt
    && WellFormed(after.files.imports, ImportManifest) && WellFormed(after.files.config, ConfigJson)
    && WellFormed(after.files.mcp, McpConfig)
    && ListedRow(after.files.imports) == ListedRow(m.files.imports)
    && McpEntry(after.files.mcp) == McpEntry(m.files.mcp)
  }

  // ---------- the states of a rollback ----------

  /** The journal of a first-time install whose post-state has been sealed. */
  predicate FirstInstall(j: Journal) {
    && j.priorTree == NoTree && j.priorRegistry == JNull && !j.committed
    && Recorded(j.prior.imports, ImportManifest) && Recorded(j.prior.config, ConfigJson)
    && Recorded(j.prior.mcp, McpConfig)
    && ListedRow(j.prior.imports) == Some(JNull) && McpEntry(j.prior.mcp) == Some(j.priorMcp)
    && j.post.Sealed? && j.post.target.Tree? && j.post.target.digest.Some?
  }

  /** Each piece of the machine is as before or as sealed, and the registries can be edited. */
  predicate Pieces(w: World) {
    var m, j := w.machine, w.journal;
    && FirstInstall(j)
    && (m.target == NoTree || (m.target.Tree? && m.target.digest == j.post.target.digest))
    && WellFormed(m.files.imports, ImportManifest) && WellFormed(m.files.config, ConfigJson)
    && WellFormed(m.files.mcp, McpConfig)
    && (ListedRow(m.files.imports) == Some(JNull) || ListedRow(m.files.imports) == Some(j.post.registry))
    && (McpEntry(m.files.mcp) == Some(j.priorMcp) || McpEntry(m.files.mcp) == Some(j.post.mcp))
    && (m.files.receipt.None? || m.files.receipt.value.Readable?
        || ReceiptBytes(m.files.receipt) == ReceiptBytes(j.prior.receipt))
  }

  /** The same once the rollback has marked its phase. */
  predicate RollingBack(w: World) { Pieces(w) && w.journal.phase == RestoringPriorPlugin }

  /** The journals differ in nothing but the phase mark. */
  predicate SameRecord(a: Journal, b: Journal) {
    b == a.(phase := b.phase, intended := b.intended)
  }

  // ---------- one registry ----------

  lemma WellFormedRestores(current: File, prior: File, name: Registry)
    requires WellFormed(current, name) && Recorded(prior, name)
    ensures RestoreRegistry(current, prior, name).Some?
    ensures var r := RestoreRegistry(current, prior, name).value;
      && WellFormed(r, name) && OwnedRow(r, name) == OwnedRow(prior, name) && RowsMatch(r, prior, name)
      && Others(r, name) == Others(current, name)
  {
    hide Foreign, Owned, IsOwned, Compactable;
    RestoreRegistryFacts(current, prior, name);
  }

  /** An import manifest with at most one row of ours lists that row. */
  lemma ListedIsOwned(f: File)
    requires OwnedRow(f, ImportManifest).Some?
    ensures ListedRow(f) == OwnedRow(f, ImportManifest)
  {
    hide Owned, Foreign;
  }

  /** Restoring the MCP registry brings back the entry of before. */
  lemma McpRestores(current: File, prior: File)
    requires WellFormed(current, McpConfig) && Recorded(prior, McpConfig) && McpEntry(prior).Some?
    ensures RestoreRegistry(current, prior, McpConfig).Some?
    ensures McpEntry(RestoreRegistry(current, prior, McpConfig).value) == McpEntry(prior)
  {
    hide Foreign, Owned, IsOwned, WithoutOwned;
    WellFormedRestores(current, prior, McpConfig);
    McpIsOwned(prior);
    var r := RestoreRegistry(current, prior, McpConfig).value;
    if r != prior && r.Some? {
      var edited := PutRow(Content(current).value, McpConfig, OwnedRow(prior, McpConfig).value).value;
      assert r == Some(Dumps(edited));
      assert Section(McpConfig) in edited.fields;
    }
  }

  lemma McpIsOwned(f: File)
    requires McpEntry(f).Some?
    ensures OwnedRow(f, McpConfig) == McpEntry(f)
  {
    hide Foreign, Owned, IsOwned;
  }

  // ---------- stages ----------

  /** Every stage succeeds and keeps the pieces; others' rows stay as they were. */
  lemma StageKeeps(w: World, plan: Plan, agyUninstall: Uninstall, k: nat)
    requires UninstallWorks(agyUninstall) && Pieces(w) && k < STAGES && !plan.removeTree && !plan.putBack
    ensures Stage(w, plan, agyUninstall, k).Taken?
    ensures var w' := Stage(w, plan, agyUninstall, k).world;
      Pieces(w') && SameOthers(w.machine.files, w'.machine.files) && SameRecord(w.journal, w'.journal)
      && (w'.journal.phase == if k == 0 then RestoringPriorPlugin else w.journal.phase)
  {
    hide RestoreRegistry, WellFormed, Recorded, OwnedRow, ListedRow, McpEntry, Others, RowsMatch;
    var m, j := w.machine, w.journal;
    var prior := j.prior;
    if k == 1 && plan.uninstall {
      assert Uninstalled(m, agyUninstall(m).machine);
      ListedIsOwned(agyUninstall(m).machine.files.imports);
    } else if k == 2 {
      WellFormedRestores(m.files.imports, prior.imports, ImportManifest);
      ListedIsOwned(RestoreRegistry(m.files.imports, prior.imports, ImportManifest).value) by {
        RecordedRow(prior.imports, ImportManifest);
      }
      ListedIsOwned(prior.imports) by { RecordedRow(prior.imports, ImportManifest); }
    } else if k == 3 {
      WellFormedRestores(m.files.config, prior.config, ConfigJson);
    } else if k == 4 {
      WellFormedRestores(m.files.mcp, prior.mcp, McpConfig);
      McpRestores(m.files.mcp, prior.mcp);
    }
  }

  lemma RecordedRow(f: File, name: Registry)
    requires Recorded(f, name)
    ensures OwnedRow(f, name).Some?
  {
    hide WellFormed, OwnedRow;
  }

  /** What each stage settles, and that later stages leave it settled. */
  predicate Settled(w: World, k: nat) {
    var m, j := w.machine, w.journal;
    && (k > 1 ==> m.target == NoTree)
    && (k > 2 ==>
          ListedRow(m.files.imports) == Some(JNull) && RowsMatch(m.files.imports, j.prior.imports, ImportManifest))
    && (k > 3 ==> RowsMatch(m.files.config, j.prior.config, ConfigJson))
    && (k > 4 ==> McpEntry(m.files.mcp) == Some(j.priorMcp) && RowsMatch(m.files.mcp, j.prior.mcp, McpConfig))
    && (k > 5 ==> ReceiptBytes(m.files.receipt) == ReceiptBytes(j.prior.receipt))
  }

  lemma StageSettles(w: World, plan: Plan, agyUninstall: Uninstall, k: nat)
    requires UninstallWorks(agyUninstall) && Pieces(w) && k < STAGES && !plan.removeTree && !plan.putBack
    requires Settled(w, k) && (k <= 1 && w.machine.target.Tree? ==> plan.uninstall)
    ensures Stage(w, plan, agyUninstall, k).Taken? && Settled(Stage(w, plan, agyUninstall, k).world, k + 1)
    ensures k == 0 ==> Stage(w, plan, agyUninstall, k).world.machine == w.machine
  {
    hide RestoreRegistry, WellFormed, Recorded, OwnedRow, ListedRow, McpEntry, Others, RowsMatch;
    StageKeeps(w, plan, agyUninstall, k);
    var m, prior := w.machine, w.journal.prior;
    if k == 1 && plan.uninstall {
      assert Uninstalled(m, agyUninstall(m).machine);
    } else if k == 2 {
      WellFormedRestores(m.files.imports, prior.imports, ImportManifest);
      ListedIsOwned(RestoreRegistry(m.files.imports, prior.imports, ImportManifest).value) by {
        RecordedRow(prior.imports, ImportManifest);
      }
      ListedIsOwned(prior.imports) by { RecordedRow(prior.imports, ImportManifest); }
    } else if k == 3 {
      WellFormedRestores(m.files.config, prior.config, ConfigJson);
    } else if k == 4 {
      WellFormedRestores(m.files.mcp, prior.mcp, McpConfig);
      McpRestores(m.files.mcp, prior.mcp);
    }
  }

  /** The stages from k on, killed or not. */
  lemma {:induction false} RunKeeps(w: World, plan: Plan, agyUninstall: Uninstall, k: nat, budget: nat)
    requires UninstallWorks(agyUninstall) && Pieces(w) && k <= STAGES && !plan.removeTree && !plan.putBack
    requires Settled(w, k) && (k <= 1 && w.machine.target.Tree? ==> plan.uninstall)
    ensures var (t, outcome) := RunStages(w, plan, agyUninstall, k, budget);
      && Pieces(t) && SameOthers(w.machine.files, t.machine.files) && SameRecord(w.journal, t.journal)
      && (k > 0 || budget > 0 ==> t.journal.phase == if k == 0 then RestoringPriorPlugin else w.journal.phase)
      && (k == 0 && budget == 0 ==> t == w)
      && (budget >= STAGES - k ==> outcome == Returned(true) && Restored(t))
      && (budget < STAGES - k ==> outcome == Killed)
    decreases STAGES - k
  {
    hide Pieces, Stage, Settled, UninstallWorks, Others;
    if k == STAGES {
      SettledIsRestored(w);
    } else if budget > 0 {
      StageKeeps(w, plan, agyUninstall, k);
      StageSettles(w, plan, agyUninstall, k);
      var w' := Stage(w, plan, agyUninstall, k).world;
      if k > 0 { TreeGone(w', k + 1); }
      RunKeeps(w', plan, agyUninstall, k + 1, budget - 1);
    }
  }

  lemma TreeGone(w: World, k: nat)
    requires Settled(w, k) && k > 1
    ensures w.machine.target == NoTree
  {}

  lemma SettledIsRestored(w: World)
    requires Pieces(w) && Settled(w, STAGES)
    ensures Restored(w)
  {
    hide WellFormed, Recorded, RowsMatch, ListedRow, McpEntry;
  }

  // ---------- one rollback ----------

  /** A rollback that goes ahead, or finds nothing to do. */
  predicate GoesAhead(w: World, expected: Json) {
    var m, j := w.machine, w.journal;
    && ListedRow(m.files.imports).Some? && McpEntry(m.files.mcp).Some?
    && Gate(m, j, ListedRow(m.files.imports).value, McpEntry(m.files.mcp).value, expected, false)
  }

  /** After its mark a rollback is always let in again. */
  lemma MarkedGoesAhead(w: World, expected: Json)
    requires RollingBack(w)
    ensures GoesAhead(w, expected)
  {
    hide WellFormed, Recorded, ListedRow, McpEntry, SealedMatch, MixedMatch, WriteAheadMatch, IncompleteFresh;
    hide RefreshGap;
  }

  /** One run of the rollback, killed after any number of its stages or not at all. */
  lemma RollbackOnce(w: World, agyUninstall: Uninstall, expected: Json, budget: nat)
    requires UninstallWorks(agyUninstall) && Pieces(w) && GoesAhead(w, expected)
    requires !IncompleteFresh(w.machine, w.journal)
    ensures var (t, outcome) := Rollback(w, agyUninstall, expected, false, budget);
      && (outcome == Killed || (outcome == Returned(true) && Restored(t)))
      && (budget >= STAGES ==> outcome == Returned(true))
      && SameOthers(w.machine.files, t.machine.files) && SameRecord(w.journal, t.journal)
      && (outcome == Killed ==> t == w || RollingBack(t))
  {
    hide WellFormed, Recorded, ListedRow, McpEntry, Gate, RunStages, UninstallWorks, OwnedMatch, Others;
    var plan := MakePlan(w.machine, w.journal);
    assert !plan.removeTree && !plan.putBack;
    assert Settled(w, 0);
    RunKeeps(w, plan, agyUninstall, 0, budget);
  }

  /** A kill after some stages, and what others do before the next run. */
  datatype Kill = Kill(budget: nat, edited: Machine)

  /** The worlds of runs of the rollback that were all killed, with foreign edits after a kill. */
  ghost predicate KilledRuns(w: World, agyUninstall: Uninstall, expected: Json, kills: seq<Kill>, end: World)
    decreases |kills|
  {
    if |kills| == 0 then end == w
    else
      var (t, outcome) := Rollback(w, agyUninstall, expected, false, kills[0].budget);
      && outcome == Killed
      && (kills[0].edited == t.machine
          || (t.journal.phase == RestoringPriorPlugin && ForeignEdit(t.machine, kills[0].edited)))
      && KilledRuns(t.(machine := kills[0].edited), agyUninstall, expected, kills[1..], end)
  }

  lemma EditKeeps(w: World, after: Machine)
    requires RollingBack(w) && ForeignEdit(w.machine, after)
    ensures RollingBack(w.(machine := after))
  {
    hide WellFormed, Recorded, ListedRow, McpEntry;
  }

  lemma RollingIsNotFresh(w: World)
    requires RollingBack(w)
    ensures !IncompleteFresh(w.machine, w.journal)
  {
    hide WellFormed, Recorded, ListedRow, McpEntry;
  }

  /**
   However often the rollback of a sealed first-time install is killed, after whichever of its own
   stages, the run that is not killed returns success with the exact state of before.
   */
  lemma {:induction false} RollbackSurvivesKills(w: World, agyUninstall: Uninstall, expected: Json, kills: seq<Kill>,
                                                 end: World)
    requires UninstallWorks(agyUninstall) && Pieces(w) && GoesAhead(w, expected)
    requires !IncompleteFresh(w.machine, w.journal)
    requires KilledRuns(w, agyUninstall, expected, kills, end)
    ensures var (t, outcome) := Rollback(end, agyUninstall, expected, false, STAGES);
      && outcome == Returned(true) && Restored(t) && t.machine.target == NoTree
      && SameOthers(end.machine.files, t.machine.files)
    decreases |kills|
  {
    hide Pieces, GoesAhead, IncompleteFresh, Rollback, UninstallWorks, Restored, Others;
    if |kills| == 0 {
      RollbackOnce(w, agyUninstall, expected, STAGES);
      RestoredIsGone(w, Rollback(w, agyUninstall, expected, false, STAGES).0);
    } else {
      var (t, outcome) := Rollback(w, agyUninstall, expected, false, kills[0].budget);
      RollbackOnce(w, agyUninstall, expected, kills[0].budget);
      var next := t.(machine := kills[0].edited);
      if t == w && t.journal.phase != RestoringPriorPlugin {
        assert next == w;
      } else {
        assert RollingBack(t);
        if kills[0].edited != t.machine { EditKeeps(t, kills[0].edited); } else { assert next == t; }
        MarkedGoesAhead(next, expected);
        RollingIsNotFresh(next);
        assert Pieces(next) by { RollingIsPieces(next); }
      }
      RollbackSurvivesKills(next, agyUninstall, expected, kills[1..], end);
    }
  }

  lemma RollingIsPieces(w: World)
    requires RollingBack(w)
    ensures Pieces(w)
  {
    hide Pieces;
  }

  lemma RestoredIsGone(w: World, t: World)
    requires Pieces(w) && Restored(t) && SameRecord(w.journal, t.journal)
    ensures t.machine.target == NoTree
  {
    hide WellFormed, Recorded, ListedRow, McpEntry, OwnedMatch;
  }
}
