/**
 What a rollback and an uninstall do where something is not as it should be: a command that fails, a receipt
 of somebody else, an identity that is not the expected one.
 */
module AgyCommands {
  import opened Options
  import opened AgyRegistry
  import opened AgyMachine
  import opened AgyGate
  import opened AgyRollback
  import opened AgyUninstall
  import opened AgyWindows
  import AgyInstall

  // ---------- the rollback's own command ----------

  /** There is a whole package, not of before, that a half-done install cannot account for. */
  predicate NeedsCommand(m: Machine, j: Journal) {
    && m.target.Tree? && !SameTarget(m.target, j.priorTree) && !HalfInstalled(m, j)
    && !(HalfRefreshed(m, j) && m.target.digest == None)
  }

  lemma NeedsExactly(m: Machine, j: Journal)
    ensures NeedsCommand(m, j) <==> MakePlan(m, j).uninstall
  {}

  /** Without the command every plan runs alike. */
  lemma {:induction false} SameRun(w: World, plan: Plan, a: Uninstall, b: Uninstall, k: nat, budget: nat)
    requires !plan.uninstall && k <= STAGES
    ensures RunStages(w, plan, a, k, budget) == RunStages(w, plan, b, k, budget)
    decreases STAGES - k
  {
    hide Restored, RestoreStage, RestoreReceipt;
    if k < STAGES && budget > 0 {
      assert Stage(w, plan, a, k) == Stage(w, plan, b, k);
      match Stage(w, plan, a, k)
      case Failed(_) =>
      case Taken(w') => SameRun(w', plan, a, b, k + 1, budget - 1);
    }
  }

  /** A command that reports failure, or leaves the package, ends the rollback where the command left it. */
  lemma FailsThere(w: World, plan: Plan, agyUninstall: Uninstall)
    requires plan.uninstall && !plan.removeTree
    requires var reply := agyUninstall(w.machine); !reply.ok || reply.machine.target.Tree?
    ensures var (t, outcome) := RunStages(w, plan, agyUninstall, 0, STAGES);
      outcome == Returned(false) && t.machine == agyUninstall(w.machine).machine
  {
    hide Restored, RestoreStage, RestoreReceipt;
    var marked := Stage(w, plan, agyUninstall, 0).world;
    assert Stage(marked, plan, agyUninstall, 1) == Failed(marked.(machine := agyUninstall(w.machine).machine));
    assert RunStages(w, plan, agyUninstall, 0, STAGES) == RunStages(marked, plan, agyUninstall, 1, STAGES - 1);
  }

  /**
   A rollback that is let in, with a command that fails: it restores the machine all the same exactly when
   it does not need the command; otherwise it answers false and writes nothing after the command.
   */
  lemma FailingCommand(w: World, agyUninstall: Uninstall, expected: Json, undoCommitted: bool)
    requires Restorable(w) && (!w.journal.committed || undoCommitted)
    requires !AsBefore(w.machine, w.journal) && MayWrite(w.machine, w.journal, expected, undoCommitted)
    requires var reply := agyUninstall(w.machine); !reply.ok || reply.machine.target.Tree?
    ensures var (t, outcome) := Rollback(w, agyUninstall, expected, undoCommitted, STAGES);
      && outcome == Returned(!NeedsCommand(w.machine, w.journal))
      && (if NeedsCommand(w.machine, w.journal) then t.machine == agyUninstall(w.machine).machine
          else AsBefore(t.machine, t.journal) && SameOthers(w.machine.files, t.machine.files))
  {
    hide WellFormed, Recorded, ListedRow, McpEntry, Gate, RunStages, UninstallWorks, OwnedMatch, Others, MakePlan;
    hide TargetIsPrior, MayWrite, AsBefore, Progress, RowsRestorable, NeedsCommand, AgyInstall.DirectUninstall;
    RestoredIsBefore(w);
    EntriesThere(w);
    GateExactly(w.machine, w.journal, expected, undoCommitted);
    var plan := MakePlan(w.machine, w.journal);
    NeedsExactly(w.machine, w.journal);
    RemovesOrUninstalls(w.machine, w.journal);
    if plan.uninstall {
      FailsThere(w, plan, agyUninstall);
    } else {
      AgyInstall.DirectUninstallWorks();
      Restores(w, AgyInstall.DirectUninstall, STAGES);
      SameRun(w, plan, agyUninstall, AgyInstall.DirectUninstall, 0, STAGES);
      RestoredIsBefore(Rollback(w, agyUninstall, expected, undoCommitted, STAGES).0);
    }
  }

  lemma RemovesOrUninstalls(m: Machine, j: Journal)
    ensures !(MakePlan(m, j).removeTree && MakePlan(m, j).uninstall)
  {}

  // ---------- somebody else's receipt ----------

  /** A receipt text that nothing can be read from, and that is not the recorded one. */
  predicate ForeignReceipt(w: World) {
    var receipt := w.machine.files.receipt;
    receipt.Some? && !receipt.value.Readable? && ReceiptBytes(receipt) != ReceiptBytes(w.journal.prior.receipt)
  }

  lemma {:induction false} StopsAtReceipt(start: World, w: World, plan: Plan, agyUninstall: Uninstall, k: nat)
    requires UninstallWorks(agyUninstall) && RowsRestorable(w) && ForeignReceipt(w) && k <= 5
    requires SameRecord(start.journal, w.journal) && PlanFits(start, plan) && Progress(start, w, plan, k)
    ensures var (t, outcome) := RunStages(w, plan, agyUninstall, k, STAGES - k);
      && outcome == Returned(false) && t.machine.files.receipt == w.machine.files.receipt
      && SameRecord(start.journal, t.journal) && SameOthers(w.machine.files, t.machine.files)
      && Progress(start, t, plan, 5)
    decreases 5 - k
  {
    hide RowsRestorable, Stage, UninstallWorks, Others, Progress, PlanFits;
    if k == 5 {
      ReceiptStageFails(w, plan, agyUninstall);
    } else {
      if k in {0, 1} { TreeStage(start, w, plan, agyUninstall, k); } else { RowStage(start, w, plan, agyUninstall, k); }
      var t := Stage(w, plan, agyUninstall, k).world;
      assert ForeignReceipt(t);
      StopsAtReceipt(start, t, plan, agyUninstall, k + 1);
    }
  }

  lemma ReceiptStageFails(w: World, plan: Plan, agyUninstall: Uninstall)
    requires ForeignReceipt(w)
    ensures Stage(w, plan, agyUninstall, 5) == Failed(w)
  {}

  /** Over such a text the rollback is let in, restores the registries, leaves the text and answers false. */
  lemma ForeignReceiptStays(w: World, agyUninstall: Uninstall, expected: Json)
    requires UninstallWorks(agyUninstall) && RowsRestorable(w) && ForeignReceipt(w) && !w.journal.committed
    ensures var (t, outcome) := Rollback(w, agyUninstall, expected, false, STAGES);
      && outcome == Returned(false) && t.machine.files.receipt == w.machine.files.receipt
      && SameOthers(w.machine.files, t.machine.files)
      && (MayWrite(w.machine, w.journal, expected, false) ==>
            && ListedRow(t.machine.files.imports) == Some(w.journal.priorRegistry)
            && McpEntry(t.machine.files.mcp) == Some(w.journal.priorMcp)
            && OwnedRow(t.machine.files.config, ConfigJson) == OwnedRow(w.journal.prior.config, ConfigJson))
      && (!MayWrite(w.machine, w.journal, expected, false) ==> t == w)
  {
    hide WellFormed, Recorded, ListedRow, McpEntry, Gate, RunStages, UninstallWorks, Others, MakePlan;
    hide TargetIsPrior, MayWrite, OwnedRow, Progress, RowsRestorable;
    EntriesThere(w);
    GateExactly(w.machine, w.journal, expected, false);
    if MayWrite(w.machine, w.journal, expected, false) {
      var plan := MakePlan(w.machine, w.journal);
      MadePlanFits(w);
      StartsHere(w, plan);
      StopsAtReceipt(w, w, plan, agyUninstall, 0);
      RowsThen(w, Rollback(w, agyUninstall, expected, false, STAGES).0, plan);
    }
  }

  lemma EntriesThere(w: World)
    requires RowsRestorable(w)
    ensures ListedRow(w.machine.files.imports).Some? && McpEntry(w.machine.files.mcp).Some?
  {
    hide WellFormed, Recorded, ListedRow, McpEntry;
  }

  lemma RowsThen(start: World, t: World, plan: Plan)
    requires Progress(start, t, plan, 5) && SameRecord(start.journal, t.journal)
    ensures ListedRow(t.machine.files.imports) == Some(start.journal.priorRegistry)
    ensures McpEntry(t.machine.files.mcp) == Some(start.journal.priorMcp)
    ensures OwnedRow(t.machine.files.config, ConfigJson) == OwnedRow(start.journal.prior.config, ConfigJson)
  {
    hide ListedRow, McpEntry, OwnedRow;
  }
}
