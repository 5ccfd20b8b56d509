/** The uninstall in full: from any machine, when it commits, when it raises, and what it leaves when it refuses. */
module AgyRefusals {
  import opened Options
  import opened AgyRegistry
  import opened AgyMachine
  import opened AgyGate
  import opened AgyRollback
  import opened AgyUninstall
  import opened AgyWindows
  import opened AgyInstall

  // ---------- identities ----------

  /** The journal was written for these identities. */
  predicate JournalFor(j: Journal, ids: Ids) {
    && SameTarget(j.priorTree, Tree(Some(ids.digest), {})) && j.priorRegistry == ids.registry && j.priorMcp == ids.mcp
  }

  /** Nothing of the plugin is left: no directory, no row, no receipt. */
  predicate AllGone(m: Machine) {
    && m.target == NoTree && ListedRow(m.files.imports) == Some(JNull) && McpEntry(m.files.mcp) == Some(JNull)
    && m.files.receipt == None
  }

  /** A committed journal is only confirmed, and one of other identities only refused; neither writes anything. */
  lemma SettledExactly(w: World, agy: Commands, expected: Json, ids: Ids, budget: nat)
    ensures w.journal.committed ==>
      UninstallRun(w, agy, expected, ids, budget)
      == (w, UReturned(JournalFor(w.journal, ids) && AllGone(w.machine)
                       && w.journal.post == Sealed(NoTree, JNull, JNull, w.machine.files)))
    ensures !w.journal.committed && !JournalFor(w.journal, ids) ==>
      UninstallRun(w, agy, expected, ids, budget) == (w, UReturned(false))
  {
    hide ListedRow, McpEntry, UStages;
  }

  /** The first run begins exactly on a machine with the package, both rows and the receipt of these identities. */
  lemma FirstRunExactly(m: Machine, ids: Ids)
    ensures FirstRun(m, ids).Some? <==>
      && SameTarget(m.target, Tree(Some(ids.digest), {}))
      && ListedRow(m.files.imports) == Some(ids.registry) && McpEntry(m.files.mcp) == Some(ids.mcp)
      && OurReceipt(m.files.receipt, ids)
    ensures FirstRun(m, ids).Some? ==>
      var j := FirstRun(m, ids).value.journal;
      && FirstRun(m, ids).value.machine == m && j.prior == m.files && j.priorTree == m.target
      && j.priorRegistry == ids.registry && j.priorMcp == ids.mcp && j.post == Unsealed && !j.committed
  {
    hide ListedRow, McpEntry;
  }

  /** The receipt names these identities. */
  predicate OurReceipt(receipt: ReceiptFile, ids: Ids) {
    receipt.Some? && receipt.value.Readable? && receipt.value.receipt.digest == ids.digest
    && receipt.value.receipt.registry == ids.registry && receipt.value.receipt.mcp == ids.mcp
  }

  // ---------- one step ----------

  lemma UnfoldStep(w: World, agy: Commands, expected: Json, ids: Ids, k: nat)
    requires k < UNINSTALL_STEPS
    ensures var step := UStage(w, agy, expected, ids, k);
      UStages(w, agy, expected, ids, k, UNINSTALL_STEPS - k)
      == if step.Stop? then (step.world, step.outcome)
         else UStages(step.world, agy, expected, ids, k + 1, UNINSTALL_STEPS - (k + 1))
  {
    hide UStage;
  }

  /** The server's row is the expected one or gone. */
  predicate ServerFits(m: Machine, ids: Ids) {
    McpEntry(m.files.mcp) == Some(ids.mcp) || McpEntry(m.files.mcp) == Some(JNull)
  }

  /** Package and import row are the expected ones, or neither is there. */
  predicate PackageFits(m: Machine, ids: Ids) {
    || (SameTarget(m.target, Tree(Some(ids.digest), {})) && ListedRow(m.files.imports) == Some(ids.registry))
    || ((m.target.Tree? ==> m.target.digest == None) && ListedRow(m.files.imports) == Some(JNull))
  }

  predicate ReceiptFits(m: Machine, ids: Ids) { m.files.receipt == None || OurReceipt(m.files.receipt, ids) }

  /** The server's row is out, and nothing else has changed but the journal's mark and seal. */
  predicate ServerOut(w: World, t: World) {
    && t.machine == w.machine.(files := w.machine.files.(mcp := t.machine.files.mcp))
    && McpEntry(t.machine.files.mcp) == Some(JNull) && WellFormed(t.machine.files.mcp, McpConfig)
    && SameOthers(w.machine.files, t.machine.files)
    && SameTransaction(w.journal, t.journal) && !t.journal.committed
  }

  /** The first three steps. */
  lemma ServerSteps(w: World, agy: Commands, expected: Json, ids: Ids) returns (t: World)
    requires CommandsWork(agy) && Editable(w.machine.files) && !w.journal.committed
    requires ServerFits(w.machine, ids)
    ensures UStages(w, agy, expected, ids, 0, UNINSTALL_STEPS) == UStages(t, agy, expected, ids, 3, UNINSTALL_STEPS - 3)
    ensures ServerOut(w, t)
  {
    hide UStages, ListedRow, McpEntry, WellFormed, Others, UninstallWorks;
    UnfoldStep(w, agy, expected, ids, 0);
    var a := UStage(w, agy, expected, ids, 0).world;
    assert a.machine == w.machine;
    UnfoldStep(a, agy, expected, ids, 1);
    assert McpRemoved(a.machine, agy.removeMcp(a.machine).machine);
    var b := UStage(a, agy, expected, ids, 1).world;
    RowListed(b.machine.files.imports);
    UnfoldStep(b, agy, expected, ids, 2);
    t := UStage(b, agy, expected, ids, 2).world;
  }

  lemma RowListed(f: File)
    requires WellFormed(f, ImportManifest)
    ensures ListedRow(f).Some?
  {}

  /** Package and import row are out too, and sealed. */
  predicate PackageOut(w: World, t: World) {
    && (if w.machine.target.Tree? && w.machine.target.digest.Some? then t.machine.target == NoTree
        else t.machine.target == w.machine.target)
    && ListedRow(t.machine.files.imports) == Some(JNull) && McpEntry(t.machine.files.mcp) == Some(JNull)
    && t.machine.files.receipt == w.machine.files.receipt && Editable(t.machine.files)
    && SameOthers(w.machine.files, t.machine.files)
    && SameTransaction(w.journal, t.journal) && !t.journal.committed
    && t.journal.post == Sealed(t.machine.target, JNull, JNull, t.machine.files)
  }

  /** The next three steps. */
  lemma PackageSteps(w: World, agy: Commands, expected: Json, ids: Ids) returns (t: World)
    requires CommandsWork(agy) && Editable(w.machine.files) && !w.journal.committed
    requires McpEntry(w.machine.files.mcp) == Some(JNull) && PackageFits(w.machine, ids)
    ensures UStages(w, agy, expected, ids, 3, UNINSTALL_STEPS - 3)
      == UStages(t, agy, expected, ids, 6, UNINSTALL_STEPS - 6)
    ensures PackageOut(w, t)
  {
    hide UStages, ListedRow, McpEntry, WellFormed, Others, OwnedRow, McpRemoved;
    UnfoldStep(w, agy, expected, ids, 3);
    var a := UStage(w, agy, expected, ids, 3).world;
    UnfoldStep(a, agy, expected, ids, 4);
    var after := agy.uninstall(a.machine).machine;
    assert Uninstalled(a.machine, after);
    ListedIsOwned(after.files.imports);
    var b := UStage(a, agy, expected, ids, 4).world;
    UnfoldStep(b, agy, expected, ids, 5);
    t := UStage(b, agy, expected, ids, 5).world;
  }

  /** The receipt, the last seal and the commit. */
  lemma LastSteps(w: World, agy: Commands, expected: Json, ids: Ids) returns (t: World, outcome: UOutcome)
    requires ListedRow(w.machine.files.imports) == Some(JNull) && McpEntry(w.machine.files.mcp) == Some(JNull)
    requires !w.journal.committed && ReceiptFits(w.machine, ids)
    ensures UStages(w, agy, expected, ids, 6, UNINSTALL_STEPS - 6) == (t, outcome)
    ensures outcome == if w.machine.target == NoTree then UReturned(true) else URaised
    ensures t.machine == w.machine.(files := w.machine.files.(receipt := None))
    ensures t.journal.committed <==> w.machine.target == NoTree
    ensures SameTransaction(w.journal, t.journal)
    ensures t.journal.committed ==> t.journal.post == Sealed(NoTree, JNull, JNull, t.machine.files)
  {
    hide UStages, ListedRow, McpEntry;
    UnfoldStep(w, agy, expected, ids, 6);
    var a := UStage(w, agy, expected, ids, 6).world;
    UnfoldStep(a, agy, expected, ids, 7);
    var b := UStage(a, agy, expected, ids, 7).world;
    UnfoldStep(b, agy, expected, ids, 8);
    if w.machine.target == NoTree {
      var c := UStage(b, agy, expected, ids, 8).world;
      UnfoldStep(c, agy, expected, ids, 9);
      t, outcome := UStage(c, agy, expected, ids, 9).world, UReturned(true);
      NoStepsLeft(t, agy, expected, ids);
    } else {
      t, outcome := b, URaised;
    }
  }

  lemma NoStepsLeft(w: World, agy: Commands, expected: Json, ids: Ids)
    ensures UStages(w, agy, expected, ids, UNINSTALL_STEPS, 0) == (w, UReturned(true))
  {}

  /** Somebody else's receipt: the rollback runs, and the uninstall answers false. */
  lemma ReceiptRefused(w: World, agy: Commands, expected: Json, ids: Ids) returns (t: World)
    requires !ReceiptFits(w.machine, ids)
    ensures UStages(w, agy, expected, ids, 6, UNINSTALL_STEPS - 6) == (t, UReturned(false))
    ensures t == Rollback(w.(journal := w.journal.(phase := RemovingReceipt)), agy.uninstall, expected, false, STAGES).0
  {
    hide UStages, ListedRow, McpEntry, Rollback;
    UnfoldStep(w, agy, expected, ids, 6);
    var a := UStage(w, agy, expected, ids, 6).world;
    UnfoldStep(a, agy, expected, ids, 7);
    t := UStage(a, agy, expected, ids, 7).world;
  }

  // ---------- the whole uninstall ----------

  /**
   An uninstall that is not killed, from any machine whose registries can be edited.  It commits exactly
   where server, package and receipt are each the expected ones or gone, and raises where the server's row
   cannot be read or a directory that is no package is left over.  Otherwise it answers false: with
   nothing written if the server's row is another one, with only the server's row taken out if the package
   or its import row is, and with the recorded machine restored if the receipt is somebody else's.
   */
  lemma UninstallExactly(w: World, agy: Commands, expected: Json, ids: Ids)
    requires CommandsWork(agy) && Editable(w.machine.files) && !w.journal.committed && JournalFor(w.journal, ids)
    ensures var (t, outcome) := UninstallRun(w, agy, expected, ids, UNINSTALL_STEPS);
      var m, n := w.machine, t.machine;
      if McpEntry(m.files.mcp) == None then (t, outcome) == (w, URaised)
      else if !ServerFits(m, ids) then (t, outcome) == (w, UReturned(false))
      else if !PackageFits(m, ids) then outcome == UReturned(false) && ServerOut(w, t)
      else if !ReceiptFits(m, ids) then
        && outcome == UReturned(false) && !t.journal.committed
        && (Restorable(w) && m.files.receipt.value.Readable? && ids.registry != JNull ==>
              AsBefore(n, t.journal) && t.journal.prior == w.journal.prior)
      else
        && outcome == (if m.target.Tree? && m.target.digest == None then URaised else UReturned(true))
        && (outcome == UReturned(true) ==> AllGone(n) && t.journal.committed && SameOthers(m.files, n.files))
        && (outcome == URaised ==> !t.journal.committed && n.target == m.target)
  {
    hide UStages, ListedRow, McpEntry, WellFormed, Others, CommandsWork, ServerFits, PackageFits, ReceiptFits, AsBefore;
    hide Restorable;
    assert JournalIs(w.journal, ids);
    if McpEntry(w.machine.files.mcp) == None || !ServerFits(w.machine, ids) {
      ServerRefused(w, agy, expected, ids);
    } else {
      var a := ServerSteps(w, agy, expected, ids);
      FitsAfter(w, a, ids);
      if !PackageFits(w.machine, ids) {
        PackageRefused(a, agy, expected, ids);
      } else {
        var b := PackageSteps(a, agy, expected, ids);
        FitsOut(a, b, ids);
        if ReceiptFits(w.machine, ids) {
          var t, outcome := LastSteps(b, agy, expected, ids);
        } else {
          var t := ReceiptRefused(b, agy, expected, ids);
          PutBack(w, a, b, agy, expected, ids);
        }
      }
    }
  }

  lemma ServerRefused(w: World, agy: Commands, expected: Json, ids: Ids)
    requires McpEntry(w.machine.files.mcp) == None || !ServerFits(w.machine, ids)
    ensures UStages(w, agy, expected, ids, 0, UNINSTALL_STEPS)
      == (w, if McpEntry(w.machine.files.mcp) == None then URaised else UReturned(false))
  {
    hide UStages, McpEntry;
    UnfoldStep(w, agy, expected, ids, 0);
  }

  lemma FitsAfter(w: World, t: World, ids: Ids)
    requires ServerOut(w, t) && Editable(w.machine.files)
    ensures PackageFits(t.machine, ids) == PackageFits(w.machine, ids)
    ensures ReceiptFits(t.machine, ids) == ReceiptFits(w.machine, ids) && Editable(t.machine.files)
  {
    hide ListedRow, McpEntry, WellFormed;
  }

  lemma FitsOut(w: World, t: World, ids: Ids)
    requires PackageOut(w, t)
    ensures ReceiptFits(t.machine, ids) == ReceiptFits(w.machine, ids)
  {
    hide ListedRow, McpEntry, WellFormed;
  }

  lemma PackageRefused(w: World, agy: Commands, expected: Json, ids: Ids)
    requires Editable(w.machine.files) && !PackageFits(w.machine, ids)
    ensures UStages(w, agy, expected, ids, 3, UNINSTALL_STEPS - 3) == (w, UReturned(false))
  {
    hide UStages, ListedRow, WellFormed;
    RowListed(w.machine.files.imports);
    UnfoldStep(w, agy, expected, ids, 3);
  }

  /** Sealed as it is, the half-removed machine is let into the rollback, which puts the recorded one back. */
  lemma PutBack(w: World, a: World, b: World, agy: Commands, expected: Json, ids: Ids)
    requires CommandsWork(agy) && ServerOut(w, a) && PackageOut(a, b) && !w.journal.committed
    requires !ReceiptFits(w.machine, ids)
    ensures var t := Rollback(b.(journal := b.journal.(phase := RemovingReceipt)), agy.uninstall, expected, false,
                              STAGES).0;
      && !t.journal.committed
      && (Restorable(w) && w.machine.files.receipt.value.Readable? && ids.registry != JNull ==>
            AsBefore(t.machine, t.journal) && t.journal.prior == w.journal.prior)
  {
    hide ListedRow, McpEntry, WellFormed, Others, AsBefore, Rollback, OwnedRow, UninstallWorks;
    var c := b.(journal := b.journal.(phase := RemovingReceipt));
    RollbackKeepsCommit(c, agy, expected);
    if Restorable(w) && w.machine.files.receipt.value.Readable? {
      assert Restorable(c);
      assert AsSealed(c.machine, c.journal);
      RollbackExactly(c, agy.uninstall, expected, false);
    }
  }

  lemma RollbackKeepsCommit(w: World, agy: Commands, expected: Json)
    ensures Rollback(w, agy.uninstall, expected, false, STAGES).0.journal.committed == w.journal.committed
  {
    hide RunStages, Gate, ListedRow, McpEntry, OwnedMatch, MakePlan;
    RollbackNeverCommits(w, MakePlan(w.machine, w.journal), agy.uninstall, 0, STAGES);
  }

  // ---------- commands that fail ----------

  /** The rollback of what a command left, told by its pieces. */
  ghost predicate RolledBack(left: Machine, j: Journal, expected: Json, t: World) {
    && SameTransaction(j, t.journal.(phase := j.phase, intended := j.intended))
    && (if AsBefore(left, j) || MayWrite(left, j, expected, false) then AsBefore(t.machine, t.journal)
        else t.machine == left)
  }

  /** A server's row that the command cannot remove: the rollback runs, and the uninstall answers false. */
  lemma FailedServer(w: World, agy: Commands, expected: Json, ids: Ids)
    requires UninstallWorks(agy.uninstall) && !w.journal.committed && JournalFor(w.journal, ids)
    requires McpEntry(w.machine.files.mcp) == Some(ids.mcp) && !agy.removeMcp(w.machine).ok
    requires Restorable(World(agy.removeMcp(w.machine).machine, w.journal.(phase := RemovingMcp)))
    ensures var (t, outcome) := UninstallRun(w, agy, expected, ids, UNINSTALL_STEPS);
      && outcome == UReturned(false)
      && RolledBack(agy.removeMcp(w.machine).machine, w.journal.(phase := RemovingMcp), expected, t)
  {
    hide UStages, ListedRow, McpEntry, WellFormed, Rollback, AsBefore, MayWrite, Restorable, UninstallWorks, Others;
    UnfoldStep(w, agy, expected, ids, 0);
    var a := UStage(w, agy, expected, ids, 0).world;
    UnfoldStep(a, agy, expected, ids, 1);
    var left := World(agy.removeMcp(w.machine).machine, w.journal.(phase := RemovingMcp));
    assert UStage(a, agy, expected, ids, 1) == GiveUp(left, agy, expected);
    RollbackExactly(left, agy.uninstall, expected, false);
  }

  /**
   A package that the command does not remove, or reports as not removed, with the server's row gone before:
   the rollback runs on what is left, sealed as it was found, and the uninstall answers false.
   */
  lemma FailedPackage(w: World, agy: Commands, expected: Json, ids: Ids)
    requires Editable(w.machine.files) && !w.journal.committed && JournalFor(w.journal, ids) && ids.mcp != JNull
    requires McpEntry(w.machine.files.mcp) == Some(JNull) && ListedRow(w.machine.files.imports) == Some(ids.registry)
    requires SameTarget(w.machine.target, Tree(Some(ids.digest), {}))
    requires var reply := agy.uninstall(w.machine); !reply.ok || reply.machine.target.Tree?
    ensures var sealed := w.journal.(phase := RemovingPlugin,
                                     post := Sealed(w.machine.target, ids.registry, JNull, w.machine.files));
      UninstallRun(w, agy, expected, ids, UNINSTALL_STEPS)
      == (Rollback(World(agy.uninstall(w.machine).machine, sealed), agy.uninstall, expected, false, STAGES).0,
          UReturned(false))
  {
    hide UStages, ListedRow, McpEntry, WellFormed, Rollback;
    UnfoldStep(w, agy, expected, ids, 0);
    var a := UStage(w, agy, expected, ids, 0).world;
    UnfoldStep(a, agy, expected, ids, 1);
    assert UStage(a, agy, expected, ids, 1) == Go(a);
    UnfoldStep(a, agy, expected, ids, 2);
    var b := UStage(a, agy, expected, ids, 2).world;
    UnfoldStep(b, agy, expected, ids, 3);
    var c := UStage(b, agy, expected, ids, 3).world;
    UnfoldStep(c, agy, expected, ids, 4);
  }
}
