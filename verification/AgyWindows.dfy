/**
 Any rollback, of a first-time install or a refresh, sealed or not: what it ends in when it is not
 killed, and, killed after any of its stages, exactly when it is let in again.
 */
module AgyWindows {
  import opened Options
  import opened AgyRegistry
  import opened AgyMachine
  import opened AgyGate
  import opened AgyRollback
  import opened AgyInstall

  // ---------- worlds that can be restored ----------

  /** The record is whole, the registries can be edited, and the receipt may be replaced. */
  predicate Restorable(w: World) {
    && RowsRestorable(w)
    && (w.machine.files.receipt.None? || w.machine.files.receipt.value.Readable?
        || ReceiptBytes(w.machine.files.receipt) == ReceiptBytes(w.journal.prior.receipt))
  }

  predicate RowsRestorable(w: World) {
    var m, j := w.machine, w.journal;
    && (j.priorTree.Tree? ==> j.priorTree.digest.Some?)
    && Recorded(j.prior.imports, ImportManifest) && Recorded(j.prior.config, ConfigJson)
    && Recorded(j.prior.mcp, McpConfig)
    && ListedRow(j.prior.imports) == Some(j.priorRegistry) && McpEntry(j.prior.mcp) == Some(j.priorMcp)
    && WellFormed(m.files.imports, ImportManifest) && WellFormed(m.files.config, ConfigJson)
    && WellFormed(m.files.mcp, McpConfig)
    && ListedRow(m.files.imports).Some? && McpEntry(m.files.mcp).Some?
  }

  /** What stages 0 to k - 1 have made of the machine of `start`. */
  predicate Progress(start: World, w: World, plan: Plan, k: nat) {
    var m, j := w.machine, w.journal;
    && (k <= 1 ==> m.target == start.machine.target)
    && (1 < k <= 6 ==> if plan.putBack then m.target == NoTree && j.priorTree.Tree? else TargetIsPrior(m, j))
    && (k > 6 ==> TargetIsPrior(m, j))
    && ListedRow(m.files.imports) == (if k > 2 then Some(j.priorRegistry)
                                      else if k == 2 && plan.uninstall then Some(JNull)
                                      else ListedRow(start.machine.files.imports))
    && McpEntry(m.files.mcp) == (if k > 4 then Some(j.priorMcp) else McpEntry(start.machine.files.mcp))
    && (k > 2 ==> RowsMatch(m.files.imports, j.prior.imports, ImportManifest))
    && (k > 3 ==> RowsMatch(m.files.config, j.prior.config, ConfigJson))
    && (k > 4 ==> RowsMatch(m.files.mcp, j.prior.mcp, McpConfig))
    && (k > 5 ==> ReceiptBytes(m.files.receipt) == ReceiptBytes(j.prior.receipt))
  }

  /** The digest the mark of a rollback names, empty where there was no package. */
  function PriorDigest(j: Journal): string {
    if j.priorTree.Tree? && j.priorTree.digest.Some? then j.priorTree.digest.value else ""
  }

  /** The plan as it was made for `start`. */
  predicate PlanFits(start: World, plan: Plan) {
    var m, j := start.machine, start.journal;
    && (plan.removeTree || plan.uninstall <==> m.target.Tree? && !TargetIsPrior(m, j))
    && (plan.removeTree ==> !plan.uninstall)
    && (plan.putBack <==> j.priorTree.Tree? && !TargetIsPrior(m, j))
  }

  lemma MadePlanFits(w: World)
    requires RowsRestorable(w)
    ensures PlanFits(w, MakePlan(w.machine, w.journal))
  {
    hide WellFormed, Recorded, ListedRow, McpEntry;
  }

  // ---------- stages ----------

  /** The mark, the tree removed, and the tree put back. */
  lemma TreeStage(start: World, w: World, plan: Plan, agyUninstall: Uninstall, k: nat)
    requires UninstallWorks(agyUninstall) && RowsRestorable(w) && k in {0, 1, 6} && SameRecord(start.journal, w.journal)
    requires PlanFits(start, plan) && Progress(start, w, plan, k)
    ensures var s := Stage(w, plan, agyUninstall, k);
      && s.Taken? && RowsRestorable(s.world) && Progress(start, s.world, plan, k + 1)
      && s.world.machine.files.receipt == w.machine.files.receipt && SameRecord(start.journal, s.world.journal)
      && SameOthers(w.machine.files, s.world.machine.files)
      && (if k == 0 then s.world.journal.phase == RestoringPriorPlugin
                         && s.world.journal.intended == Some(PriorDigest(w.journal))
          else s.world.journal == w.journal)
  {
    hide WellFormed, Recorded, ListedRow, McpEntry, Others, RowsMatch, OwnedRow;
    if k == 1 && plan.uninstall {
      assert Uninstalled(w.machine, agyUninstall(w.machine).machine);
      ListedIsOwned(agyUninstall(w.machine).machine.files.imports);
    }
  }

  /** The registries and the receipt. */
  lemma RowStage(start: World, w: World, plan: Plan, agyUninstall: Uninstall, k: nat)
    requires RowsRestorable(w) && 2 <= k <= 5 && SameRecord(start.journal, w.journal) && Progress(start, w, plan, k)
    requires k == 5 ==> Restorable(w)
    ensures var s := Stage(w, plan, agyUninstall, k);
      && s.Taken? && RowsRestorable(s.world) && Progress(start, s.world, plan, k + 1)
      && (k == 5 ==> Restorable(s.world))
      && (k < 5 ==> s.world.machine.files.receipt == w.machine.files.receipt)
      && SameRecord(start.journal, s.world.journal)
      && SameOthers(w.machine.files, s.world.machine.files) && s.world.journal == w.journal
  {
    hide RestoreRegistry, WellFormed, Recorded, OwnedRow, ListedRow, McpEntry, Others, RowsMatch;
    var m, prior := w.machine, w.journal.prior;
    if k == 2 {
      WellFormedRestores(m.files.imports, prior.imports, ImportManifest);
      ListedIsOwned(RestoreRegistry(m.files.imports, prior.imports, ImportManifest).value) by {
        RecordedRow(prior.imports, ImportManifest);
      }
      ListedIsOwned(prior.imports) by { RecordedRow(prior.imports, ImportManifest); }
    } else if k == 3 {
      WellFormedRestores(m.files.config, prior.config, ConfigJson);
    } else if k == 4 {
      WellFormedRestores(m.files.mcp, prior.mcp, McpConfig);
      McpRestores(m.files.mcp, prior.mcp);
    }
  }

  /** The stages from k on, killed or not. */
  lemma {:induction false} RunRestores(start: World, w: World, plan: Plan, agyUninstall: Uninstall, k: nat, budget: nat)
    requires UninstallWorks(agyUninstall) && Restorable(w) && k <= STAGES && SameRecord(start.journal, w.journal)
    requires PlanFits(start, plan) && Progress(start, w, plan, k)
    ensures var (t, outcome) := RunStages(w, plan, agyUninstall, k, budget);
      && Restorable(t) && SameRecord(start.journal, t.journal) && SameOthers(w.machine.files, t.machine.files)
      && (budget >= STAGES - k ==> outcome == Returned(true) && Restored(t))
      && (budget < STAGES - k ==> outcome == Killed && Progress(start, t, plan, k + budget))
      && (budget > 0 && k == 0 ==>
            t.journal.phase == RestoringPriorPlugin && t.journal.intended == Some(PriorDigest(w.journal)))
      && (k > 0 ==> t.journal.phase == w.journal.phase && t.journal.intended == w.journal.intended)
    decreases STAGES - k
  {
    hide RowsRestorable, Stage, UninstallWorks, Others, Progress, PlanFits;
    if k == STAGES {
      DoneIsRestored(start, w, plan);
    } else if budget > 0 {
      if k in {0, 1, 6} {
        TreeStage(start, w, plan, agyUninstall, k);
      } else {
        RowStage(start, w, plan, agyUninstall, k);
      }
      RunRestores(start, Stage(w, plan, agyUninstall, k).world, plan, agyUninstall, k + 1, budget - 1);
    }
  }

  lemma DoneIsRestored(start: World, w: World, plan: Plan)
    requires Restorable(w) && Progress(start, w, plan, STAGES)
    ensures Restored(w)
  {
    hide WellFormed, Recorded, ListedRow, McpEntry, RowsMatch;
  }

  // ---------- one rollback ----------

  /** The closing check of the rollback, piece by piece. */
  lemma RestoredIsBefore(w: World)
    ensures Restored(w) <==> AsBefore(w.machine, w.journal)
  {
    hide OwnedRow, ListedRow, McpEntry;
  }

  /**
   Any rollback that is not killed, also the undoing of a commit: it answers true exactly when nothing is
   left to do or the pieces may be written, and then they are those of before; refused, it leaves
   everything as it is.  A committed journal that is not to be undone is left alone.
   */
  lemma RollbackExactly(w: World, agyUninstall: Uninstall, expected: Json, undoCommitted: bool)
    requires UninstallWorks(agyUninstall) && Restorable(w)
    ensures var (t, outcome) := Rollback(w, agyUninstall, expected, undoCommitted, STAGES);
      && (w.journal.committed && !undoCommitted ==> (t, outcome) == (w, Returned(true)))
      && (!w.journal.committed || undoCommitted ==>
            && outcome == Returned(AsBefore(w.machine, w.journal)
                                   || MayWrite(w.machine, w.journal, expected, undoCommitted))
            && (outcome == Returned(true) ==>
                AsBefore(t.machine, t.journal) && SameOthers(w.machine.files, t.machine.files)
                && SameRecord(w.journal, t.journal))
            && (outcome == Returned(false) || AsBefore(w.machine, w.journal) ==> t == w))
  {
    hide WellFormed, Recorded, ListedRow, McpEntry, Gate, RunStages, UninstallWorks, OwnedMatch, Others, MakePlan;
    hide TargetIsPrior, MayWrite, AsBefore;
    RestoredIsBefore(w);
    GateExactly(w.machine, w.journal, expected, undoCommitted);
    if (!w.journal.committed || undoCommitted) && !AsBefore(w.machine, w.journal)
        && MayWrite(w.machine, w.journal, expected, undoCommitted) {
      Restores(w, agyUninstall, STAGES);
      RestoredIsBefore(Rollback(w, agyUninstall, expected, undoCommitted, STAGES).0);
    }
  }

  /** The run of a rollback that has been let in. */
  lemma Restores(w: World, agyUninstall: Uninstall, budget: nat)
    requires UninstallWorks(agyUninstall) && Restorable(w)
    ensures var plan := MakePlan(w.machine, w.journal);
      var (t, outcome) := RunStages(w, plan, agyUninstall, 0, budget);
      && Restorable(t) && SameRecord(w.journal, t.journal) && SameOthers(w.machine.files, t.machine.files)
      && (budget >= STAGES ==> outcome == Returned(true) && Restored(t))
      && (budget < STAGES ==> outcome == Killed && Progress(w, t, plan, budget))
      && (budget > 0 ==>
            t.journal.phase == RestoringPriorPlugin && t.journal.intended == Some(PriorDigest(w.journal)))
      && PlanFits(w, plan)
  {
    hide WellFormed, Recorded, ListedRow, McpEntry, RunStages, UninstallWorks, Others, MakePlan, Progress, Restored;
    hide RowsRestorable, PlanFits;
    var plan := MakePlan(w.machine, w.journal);
    MadePlanFits(w);
    StartsHere(w, plan);
    RunRestores(w, w, plan, agyUninstall, 0, budget);
  }

  lemma StartsHere(w: World, plan: Plan)
    ensures Progress(w, w, plan, 0)
  {
    hide ListedRow, McpEntry, RowsMatch;
  }

  // ---------- let in again ----------

  /** The pieces a marked rollback may meet. */
  predicate MayGoOn(target: Tree, registry: Json, mcp: Json, j: Journal) {
    && Digest(target) in {None, Digest(j.priorTree), PostDigest(j)}
    && registry in {j.priorRegistry, PostRegistry(j)} && mcp in {j.priorMcp, PostMcp(j)}
  }

  /** After the phase mark, sealed or not, exactly this is let in. */
  lemma MarkedExactly(w: World, expected: Json)
    requires w.journal.phase == RestoringPriorPlugin
    requires ListedRow(w.machine.files.imports).Some? && McpEntry(w.machine.files.mcp).Some?
    ensures GoesAhead(w, expected) <==>
      MayGoOn(w.machine.target, ListedRow(w.machine.files.imports).value, McpEntry(w.machine.files.mcp).value,
              w.journal)
  {
    hide ListedRow, McpEntry;
  }

  /** The row that is listed after `budget` stages. */
  function RowThen(w: World, budget: nat): Json
    requires ListedRow(w.machine.files.imports).Some?
  {
    if budget > 2 then w.journal.priorRegistry
    else if budget == 2 && MakePlan(w.machine, w.journal).uninstall then JNull
    else ListedRow(w.machine.files.imports).value
  }

  /**
   A rollback let in and killed after `budget` of its stages is let in again if and only if what its
   next run meets is of before or as sealed: the package, while it is still there; the listed row,
   gone with the package until it is restored; and the MCP row, until that is restored.
   */
  lemma KilledRollbackAgain(w: World, agyUninstall: Uninstall, expected: Json, budget: nat)
    requires UninstallWorks(agyUninstall) && Restorable(w) && !w.journal.committed
    requires !AsBefore(w.machine, w.journal) && GoesAhead(w, expected) && 0 < budget < STAGES
    ensures var (t, outcome) := Rollback(w, agyUninstall, expected, false, budget);
      && outcome == Killed && Restorable(t) && SameRecord(w.journal, t.journal)
      && SameOthers(w.machine.files, t.machine.files)
      && (GoesAhead(t, expected) <==>
            MayGoOn(if budget > 1 then NoTree else w.machine.target, RowThen(w, budget),
                    if budget > 4 then w.journal.priorMcp else McpEntry(w.machine.files.mcp).value, w.journal))
  {
    hide WellFormed, Recorded, ListedRow, McpEntry, Gate, RunStages, UninstallWorks, OwnedMatch, Others, MakePlan;
    hide RowsMatch, AsBefore;
    RestoredIsBefore(w);
    Restores(w, agyUninstall, budget);
    var t := Rollback(w, agyUninstall, expected, false, budget).0;
    MarkedExactly(t, expected);
  }

  // ---------- the windows ----------

  /** Unsealed: once the phase mark is written over the install's own, a whole package is never let in again. */
  lemma UnsealedMarkIsRefused(w: World, agyUninstall: Uninstall, expected: Json, budget: nat)
    requires w.journal.post.Unsealed? && w.journal.priorTree.NoTree? && !w.journal.committed
    requires w.journal.phase == RestoringPriorPlugin && w.machine.target.Tree? && w.machine.target.digest.Some?
    ensures Rollback(w, agyUninstall, expected, false, budget) == (w, Returned(false))
  {
    hide ListedRow, McpEntry, OwnedMatch, RunStages, MakePlan;
  }

  /**
   The rollback of an unsealed first-time install with a whole package, killed: let in again exactly
   when the package was already gone and its MCP row is not the new one, or was restored.
   */
  lemma UnsealedWindow(w: World, agyUninstall: Uninstall, expected: Json, budget: nat)
    requires UninstallWorks(agyUninstall) && Restorable(w) && GoesAhead(w, expected) && 0 < budget < STAGES
    requires !w.journal.committed && w.journal.post.Unsealed? && w.journal.priorTree.NoTree?
    requires w.journal.priorRegistry == JNull
    requires w.machine.target.Tree? && w.machine.target.digest.Some?
    ensures GoesAhead(Rollback(w, agyUninstall, expected, false, budget).0, expected) <==>
      budget > 1 && (budget > 4 || McpEntry(w.machine.files.mcp).value in {w.journal.priorMcp, JNull})
  {
    hide WellFormed, Recorded, ListedRow, McpEntry, GoesAhead, UninstallWorks, OwnedMatch, Rollback;
    KilledRollbackAgain(w, agyUninstall, expected, budget);
  }

  /** A refresh: between the uninstall and the restored rows the import row is neither the old nor the sealed one. */
  lemma RefreshGapIsRefused(w: World, agyUninstall: Uninstall, expected: Json, budget: nat)
    requires w.journal.priorTree.Tree? && w.journal.priorRegistry != JNull && !w.journal.committed
    requires w.journal.post.Sealed? && w.journal.post.registry != JNull
    requires w.journal.phase == RestoringPriorPlugin && w.machine.target == NoTree
    requires ListedRow(w.machine.files.imports) == Some(JNull)
    ensures Rollback(w, agyUninstall, expected, false, budget) == (w, Returned(false))
  {
    hide ListedRow, McpEntry, OwnedMatch, RunStages, MakePlan;
  }

  /**
   The rollback of a sealed refresh that changed the package, killed: let in again exactly unless the
   kill fell between the uninstall and the restored import row.
   */
  lemma RefreshWindow(w: World, agyUninstall: Uninstall, expected: Json, budget: nat)
    requires UninstallWorks(agyUninstall) && Restorable(w) && 0 < budget < STAGES && !w.journal.committed
    requires w.journal.priorTree.Tree? && w.journal.priorRegistry != JNull && w.journal.post.Sealed?
    requires w.journal.post.registry != JNull
    requires w.machine.target.Tree? && w.machine.target.digest.Some? && !TargetIsPrior(w.machine, w.journal)
    requires SealedMatch(w.machine, w.journal, ListedRow(w.machine.files.imports).value,
                         McpEntry(w.machine.files.mcp).value)
    ensures GoesAhead(Rollback(w, agyUninstall, expected, false, budget).0, expected) <==> budget != 2
  {
    hide WellFormed, Recorded, ListedRow, McpEntry, UninstallWorks, OwnedMatch, Rollback;
    KilledRollbackAgain(w, agyUninstall, expected, budget);
  }

  // ---------- an install killed before its first seal ----------

  /** The worlds of an unsealed install, step by step. */
  lemma UnsealedSteps(m: Machine, agy: Agy, digest: string, references: seq<string>, expected: Json, k: nat)
    requires Fresh(m) && AgyWorks(agy, digest, expected) && k <= 6
    ensures var w := InstallAfter(m, agy, digest, references, k);
      var a := agy.install(m);
      && w.machine == (if k <= 1 then m else if k <= 3 then a else if k <= 5 then agy.enable(a)
                       else agy.registerMcp(agy.enable(a)))
      && w.journal == (if k == 0 then Persisted(m) else Persisted(m).(intended := Some(digest),
                         phase := if k <= 2 then InstallingPlugin else if k <= 4 then EnablingPlugin
                           else RegisteringMcp))
  {
    hide ListedRow, McpEntry, WellFormed, Recorded, InstallAfter, Fresh, AgyWorks;
    Unfold(m, agy, digest, references, 1);
    if k >= 2 { Unfold(m, agy, digest, references, 2); }
    if k >= 3 { Unfold(m, agy, digest, references, 3); }
    if k >= 4 { Unfold(m, agy, digest, references, 4); }
    if k >= 5 { Unfold(m, agy, digest, references, 5); }
    if k >= 6 { Unfold(m, agy, digest, references, 6); }
  }

  /** What the commands have changed by step k, as the write-ahead check sees it. */
  predicate Halfway(m: Machine, w: World, digest: string, expected: Json, k: nat) {
    var n := w.machine;
    && n.target.Tree? && n.target.digest == Some(digest) && n.files.receipt == m.files.receipt && Editable(n.files)
    && ListedRow(n.files.imports).Some? && McpEntry(n.files.mcp).Some?
    && (k <= 3 ==> n.files.config == m.files.config)
    && (if k <= 5 then n.files.mcp == m.files.mcp else McpEntry(n.files.mcp) == Some(expected))
  }

  lemma CommandsHalfway(m: Machine, agy: Agy, digest: string, references: seq<string>, expected: Json, k: nat)
    requires Fresh(m) && AgyWorks(agy, digest, expected) && 2 <= k <= 6
    ensures Halfway(m, InstallAfter(m, agy, digest, references, k), digest, expected, k)
  {
    hide ListedRow, McpEntry, OwnedRow, WellFormed, Recorded, Others, UninstallWorks, InstallAfter;
    UnsealedSteps(m, agy, digest, references, expected, k);
    FreshEditable(m);
    var a := agy.install(m);
    assert Installed(m, a, digest);
    ListedIsOwned(a.files.imports);
    var b := agy.enable(a);
    assert Enabled(a, b);
    assert McpRegistered(b, agy.registerMcp(b), expected);
    assert McpEntry(m.files.mcp).Some?;
  }

  /**
   A first-time install killed before its first seal: up to its first command there is nothing to do,
   and from there on the rollback is let in exactly when the listed row is Antigravity's own with the
   components of the directory and, once it has begun to enable the plugin, the config does not disable it.
   */
  lemma UnsealedInstallGoesAhead(m: Machine, agy: Agy, digest: string, references: seq<string>, expected: Json, k: nat)
    requires Fresh(m) && AgyWorks(agy, digest, expected) && k <= 6
    ensures var w := InstallAfter(m, agy, digest, references, k);
      && Restorable(w) && !w.journal.committed && w.journal.prior == m.files
      && (k <= 1 ==> AsBefore(w.machine, w.journal))
      && (k >= 2 ==>
            && w.machine.target.Tree?
            && (GoesAhead(w, expected) <==>
                  RowOfTarget(ListedRow(w.machine.files.imports).value, w.machine.target)
                  && (k <= 2 || NotDisabled(w.machine.files.config))))
  {
    hide InstallAfter, AgyWorks, NotDisabled, RowOfTarget;
    UnsealedSteps(m, agy, digest, references, expected, k);
    var w := InstallAfter(m, agy, digest, references, k);
    if k <= 1 {
      FreshIsPrior(m, w);
    } else {
      assert expected.JObj? by { ExpectedIsRow(agy, digest, expected); }
      CommandsHalfway(m, agy, digest, references, expected, k);
      HalfwayGate(m, w, digest, expected, k);
      IntendedRow(ListedRow(w.machine.files.imports).value, w.machine.target);
      EnabledIsNotDisabled(w.machine.files.config);
    }
  }

  lemma ExpectedIsRow(agy: Agy, digest: string, expected: Json)
    requires AgyWorks(agy, digest, expected)
    ensures expected.JObj?
  {
    hide UninstallWorks, Installed, Enabled, McpRegistered;
  }

  lemma FreshIsPrior(m: Machine, w: World)
    requires Fresh(m) && w.machine == m
    requires w.journal == Persisted(m).(phase := w.journal.phase, intended := w.journal.intended)
    ensures Restorable(w) && AsBefore(w.machine, w.journal)
  {
    hide WellFormed, OwnedRow, ListedRow, McpEntry;
  }

  lemma HalfwayGate(m: Machine, w: World, digest: string, expected: Json, k: nat)
    requires Fresh(m) && 2 <= k <= 6 && Halfway(m, w, digest, expected, k) && expected.JObj?
    requires w.journal == Persisted(m).(intended := Some(digest),
               phase := if k <= 2 then InstallingPlugin else if k <= 4 then EnablingPlugin else RegisteringMcp)
    ensures Restorable(w)
    ensures GoesAhead(w, expected) <==> IntendedTarget(w.machine, w.journal, ListedRow(w.machine.files.imports).value)
  {
    hide WellFormed, OwnedRow, ListedRow, McpEntry, IntendedTarget;
  }
}
