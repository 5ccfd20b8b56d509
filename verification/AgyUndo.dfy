/**
 The undoing of a committed uninstall (`restore_recovery_snapshot` with `undo_committed`): when it is let
 in, what it ends in, and from which kill on it is shut out.
 */
module AgyUndo {
  import opened Options
  import opened AgyRegistry
  import opened AgyMachine
  import opened AgyGate
  import opened AgyRollback
  import opened AgyUninstall
  import opened AgyWindows
  import AgyInstall

  /** Undo, killed or not. */
  lemma UndoExactly(w: World, agyUninstall: Uninstall, expected: Json, budget: nat)
    requires UninstallWorks(agyUninstall) && Restorable(w)
    ensures var (t, outcome) := Rollback(w, agyUninstall, expected, true, budget);
      if AsBefore(w.machine, w.journal) then (t, outcome) == (w, Returned(true))
      else if !AsSealed(w.machine, w.journal) then (t, outcome) == (w, Returned(false))
      else if budget < STAGES then
        && outcome == Killed && Restorable(t) && SameRecord(w.journal, t.journal)
        && SameOthers(w.machine.files, t.machine.files)
      else
        && outcome == Returned(true) && AsBefore(t.machine, t.journal) && SameRecord(w.journal, t.journal)
        && SameOthers(w.machine.files, t.machine.files)
  {
    hide WellFormed, Recorded, ListedRow, McpEntry, Gate, RunStages, UninstallWorks, OwnedMatch, Others, MakePlan;
    hide TargetIsPrior, AsBefore, AsSealed, Progress;
    RestoredIsBefore(w);
    GateExactly(w.machine, w.journal, expected, true);
    if !AsBefore(w.machine, w.journal) && AsSealed(w.machine, w.journal) {
      Restores(w, agyUninstall, budget);
      RestoredIsBefore(Rollback(w, agyUninstall, expected, true, budget).0);
    }
  }

  /** A kill of the undo: its next run answers true exactly when nothing is left to do or nothing was done yet. */
  lemma KilledUndoAgain(w: World, agyUninstall: Uninstall, expected: Json, budget: nat)
    requires UninstallWorks(agyUninstall) && Restorable(w) && !AsBefore(w.machine, w.journal)
    requires AsSealed(w.machine, w.journal) && 0 < budget < STAGES
    ensures var t := Rollback(w, agyUninstall, expected, true, budget).0;
      Rollback(t, agyUninstall, expected, true, STAGES).1
      == Returned(AsBefore(t.machine, t.journal)
                  || (SameTarget(t.machine.target, w.machine.target) && t.machine.files == w.machine.files))
  {
    hide WellFormed, Recorded, ListedRow, McpEntry, UninstallWorks, AsBefore, Rollback;
    UndoExactly(w, agyUninstall, expected, budget);
    var t := Rollback(w, agyUninstall, expected, true, budget).0;
    UndoExactly(t, agyUninstall, expected, STAGES);
  }

  /** A world in which the uninstall of this transaction has been committed and nothing was touched since. */
  predicate Committed(w: World) {
    && w.journal.priorTree.Tree? && w.journal.priorRegistry != JNull
    && w.journal.post == Sealed(NoTree, JNull, JNull, w.machine.files)
    && Clean(w.machine)
  }

  lemma CommittedIsSealed(w: World)
    requires Committed(w)
    ensures AsSealed(w.machine, w.journal) && !AsBefore(w.machine, w.journal)
  {
    hide ListedRow, McpEntry, OwnedRow;
  }

  /**
   The undo of a committed uninstall, killed after `budget` of its seven stages: running it again
   restores the machine if and only if the kill came before the import row was put back.  From there
   on every further run refuses and leaves the machine half restored.
   */
  lemma UndoWindow(w: World, agyUninstall: Uninstall, expected: Json, budget: nat)
    requires UninstallWorks(agyUninstall) && Restorable(w) && Committed(w) && 0 < budget < STAGES
    ensures var t := Rollback(w, agyUninstall, expected, true, budget).0;
      var (u, outcome) := Rollback(t, agyUninstall, expected, true, STAGES);
      && outcome == Returned(budget <= 2)
      && (if budget <= 2 then AsBefore(u.machine, u.journal)
          else u == t && t.machine.target == NoTree
               && ListedRow(t.machine.files.imports) == Some(w.journal.priorRegistry))
  {
    hide WellFormed, Recorded, ListedRow, McpEntry, UninstallWorks, AsBefore, Rollback, Progress, Restorable;
    CommittedIsSealed(w);
    UndoExactly(w, agyUninstall, expected, budget);
    KilledUndoAgain(w, agyUninstall, expected, budget);
    var t := Rollback(w, agyUninstall, expected, true, budget).0;
    UndoExactly(t, agyUninstall, expected, STAGES);
    UndoProgress(w, agyUninstall, expected, budget);
  }

  /** Until the import row is put back the machine is untouched, and the package comes last of all. */
  lemma UndoProgress(w: World, agyUninstall: Uninstall, expected: Json, budget: nat)
    requires UninstallWorks(agyUninstall) && Restorable(w) && Committed(w) && 0 < budget < STAGES
    ensures var t := Rollback(w, agyUninstall, expected, true, budget).0;
      && t.machine.target == NoTree && (budget <= 2 ==> t.machine == w.machine)
      && (budget > 2 ==> ListedRow(t.machine.files.imports) == Some(w.journal.priorRegistry))
      && !AsBefore(t.machine, t.journal)
  {
    hide WellFormed, Recorded, ListedRow, McpEntry, UninstallWorks, OwnedRow, RowsMatch, Restored, Gate, OwnedMatch;
    hide RunStages, Stage, MakePlan, Restorable;
    CommittedIsSealed(w);
    RestoredIsBefore(w);
    GateExactly(w.machine, w.journal, expected, true);
    Restores(w, agyUninstall, budget);
    var plan := MakePlan(w.machine, w.journal);
    FirstStages(w, plan, agyUninstall, budget);
  }

  /** With no tree in place the first two stages write the mark and nothing else. */
  lemma FirstStages(w: World, plan: Plan, agyUninstall: Uninstall, budget: nat)
    requires w.machine.target.NoTree? && PlanFits(w, plan)
    ensures budget <= 2 ==> RunStages(w, plan, agyUninstall, 0, budget).0.machine == w.machine
  {
    hide Restored, TargetIsPrior, RestoreStage, RestoreReceipt;
    if 0 < budget <= 2 {
      var marked := Stage(w, plan, agyUninstall, 0).world;
      assert marked.machine == w.machine;
      assert Stage(marked, plan, agyUninstall, 1) == Taken(marked);
      OneMore(w, plan, agyUninstall, 0, budget);
      if budget == 2 { OneMore(marked, plan, agyUninstall, 1, 1); }
    }
  }

  lemma OneMore(w: World, plan: Plan, agyUninstall: Uninstall, k: nat, budget: nat)
    requires k < STAGES && budget > 0 && Stage(w, plan, agyUninstall, k).Taken?
    ensures var next := Stage(w, plan, agyUninstall, k).world;
      && RunStages(w, plan, agyUninstall, k, budget) == RunStages(next, plan, agyUninstall, k + 1, budget - 1)
      && (k + 1 < STAGES ==> RunStages(next, plan, agyUninstall, k + 1, 0) == (next, Killed))
  {
    hide Stage, Restored;
  }

  // ---------- the uninstall and its undo ----------

  /** A record of a machine with the plugin that can be put back. */
  predicate WholeMachine(m: Machine, ids: Ids) {
    && ids.registry != JNull && ids.mcp != JNull
    && Recorded(m.files.imports, ImportManifest) && Recorded(m.files.config, ConfigJson)
    && Recorded(m.files.mcp, McpConfig)
  }

  lemma WholeIsEditable(m: Machine, ids: Ids)
    requires WholeMachine(m, ids)
    ensures AgyInstall.Editable(m.files)
  {
    hide WellFormed, OwnedRow;
  }

  /** What the uninstall of `m` leaves behind. */
  predicate LeftBy(m: Machine, ids: Ids, done: World) {
    && done.journal.committed && Clean(done.machine) && AgyInstall.Editable(done.machine.files)
    && done.journal.post == Sealed(NoTree, JNull, JNull, done.machine.files)
    && done.journal.prior == m.files && done.journal.priorTree == m.target
    && done.journal.priorRegistry == ids.registry && done.journal.priorMcp == ids.mcp
  }

  /** Through any kills and edits of others. */
  lemma UninstallLeaves(m: Machine, agy: Commands, expected: Json, ids: Ids, kills: seq<Kill>, end: World)
    requires CommandsWork(agy) && FirstRun(m, ids).Some? && WholeMachine(m, ids)
    requires KilledUninstalls(FirstRun(m, ids).value, agy, expected, ids, kills, end)
    ensures var (done, answer) := UninstallRun(end, agy, expected, ids, UNINSTALL_STEPS);
      && answer == UReturned(true) && LeftBy(m, ids, done) && Restorable(done)
  {
    hide UStages, ForeignEdit, Others, ListedRow, McpEntry, WellFormed, OwnedRow, UninstallRun, KilledUninstalls;
    hide CommandsWork;
    WholeIsEditable(m, ids);
    FirstRunLeaves(m, ids);
    UninstallSurvivesKills(FirstRun(m, ids).value, agy, expected, ids, kills, end);
  }

  /**
   Undo, whatever has become of the machine since its uninstall was committed: it succeeds exactly when
   directory and files are as the commit left them, or the machine is already back, and then the machine
   is back; otherwise it leaves everything alone.  Without `undo_committed` a rollback answers true and
   does nothing.
   */
  lemma UndoOfUninstall(m: Machine, ids: Ids, done: World, found: Machine, agyUninstall: Uninstall, expected: Json)
    requires UninstallWorks(agyUninstall) && FirstRun(m, ids).Some? && WholeMachine(m, ids) && LeftBy(m, ids, done)
    requires Restorable(World(found, done.journal))
    ensures var (t, outcome) := Rollback(World(found, done.journal), agyUninstall, expected, true, STAGES);
      && outcome == Returned(AsBefore(found, done.journal)
                             || (found.target == NoTree && found.files == done.machine.files))
      && (outcome == Returned(true) ==>
            && t.machine.target.Tree? && t.machine.target.digest == Some(ids.digest)
            && ListedRow(t.machine.files.imports) == Some(ids.registry)
            && McpEntry(t.machine.files.mcp) == Some(ids.mcp)
            && OwnedRow(t.machine.files.config, ConfigJson) == OwnedRow(m.files.config, ConfigJson)
            && t.machine.files.receipt == m.files.receipt && SameOthers(found.files, t.machine.files))
      && (outcome == Returned(false) ==> t.machine == found)
      && Rollback(World(found, done.journal), agyUninstall, expected, false, STAGES)
         == (World(found, done.journal), Returned(true))
  {
    hide Others, ListedRow, McpEntry, WellFormed, OwnedRow, RunStages, Gate, MakePlan, Rollback, UninstallWorks;
    hide Restorable;
    var w := World(found, done.journal);
    UndoExactly(w, agyUninstall, expected, STAGES);
    RollbackExactly(w, agyUninstall, expected, false);
  }

  /** A foreign package in place of the removed one is left alone. */
  lemma ForeignPackageStays(m: Machine, ids: Ids, done: World, found: Machine, agyUninstall: Uninstall, expected: Json)
    requires UninstallWorks(agyUninstall) && FirstRun(m, ids).Some? && WholeMachine(m, ids) && LeftBy(m, ids, done)
    requires Restorable(World(found, done.journal))
    requires found.target.Tree? && found.target.digest != Some(ids.digest)
    ensures Rollback(World(found, done.journal), agyUninstall, expected, true, STAGES)
      == (World(found, done.journal), Returned(false))
  {
    hide Others, ListedRow, McpEntry, WellFormed, OwnedRow, Rollback, UninstallWorks, SameOthers, Restorable;
    UndoExactly(World(found, done.journal), agyUninstall, expected, STAGES);
  }
}
