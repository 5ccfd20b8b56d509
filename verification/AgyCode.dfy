/**
 The recovery code of omg_cli/antigravity_install.py as it edits the machine and the journal in
 place, proved to do what the staged functions of AgyMachine and AgyUninstall say.
 */
module AgyCode {
  import opened Options
  import opened AgyRegistry
  import opened AgyMachine
  import opened AgyUninstall

  /** The list comprehension that drops this plugin's rows. */
  method ForeignRows(rows: seq<Json>) returns (kept: seq<Json>)
    ensures kept == Foreign(rows)
  {
    kept := [];
    for i := 0 to |rows|
      invariant kept + Foreign(rows[i..]) == Foreign(rows)
    {
      if !IsOwned(rows[i]) { kept := kept + [rows[i]]; }
    }
  }

  /** What is left of the stages after stage k. */
  lemma NextStage(w: World, plan: Plan, agyUninstall: Uninstall, k: nat)
    requires k < STAGES
    ensures RunStages(w, plan, agyUninstall, k, STAGES - k) ==
      match Stage(w, plan, agyUninstall, k)
      case Failed(t) => (t, Returned(false))
      case Taken(t) => RunStages(t, plan, agyUninstall, k + 1, STAGES - (k + 1))
  {
    hide Stage;
  }

  lemma NextStep(w: World, agy: Commands, expected: Json, ids: Ids, k: nat)
    requires k < UNINSTALL_STEPS
    ensures UStages(w, agy, expected, ids, k, UNINSTALL_STEPS - k) ==
      match UStage(w, agy, expected, ids, k)
      case Stop(t, outcome) => (t, outcome)
      case Go(t) => UStages(t, agy, expected, ids, k + 1, UNINSTALL_STEPS - (k + 1))
  {
    hide UStage;
  }

  /** No plugin directory, and neither registry lists the plugin. */
  predicate NothingLeft(m: Machine) {
    m.target.NoTree? && ListedRow(m.files.imports) == Some(JNull) && McpEntry(m.files.mcp) == Some(JNull)
  }

  /** The machine-global files and the journal of one transaction. */
  class Host {
    var target: Tree
    var files: Files
    var journal: Journal

    constructor (machine: Machine, record: Journal)
      ensures Now() == World(machine, record)
    {
      target, files, journal := machine.target, machine.files, record;
    }

    function Now(): World
      reads this
    {
      World(Machine(target, files), journal)
    }

    /** One registry of `_restore_owned_registry_rows`. */
    method RestoreRow(name: Registry) returns (ok: bool)
      modifies `files
      ensures var r := RestoreRegistry(old(FileOf(files, name)), FileOf(journal.prior, name), name);
        ok == r.Some? && files == if ok then WithFile(old(files), name, r.value) else old(files)
    {
      hide WithoutOwned, OwnedRow, Foreign, Compactable;
      var file, prior := FileOf(files, name), FileOf(journal.prior, name);
      var content, recorded := Content(file), PriorContent(prior);
      if content.None? || recorded.None? || !content.value.JObj? || !recorded.value.JObj? { return false; }
      var mine, theirs := WithoutOwned(content.value, name), WithoutOwned(recorded.value, name);
      if mine.None? || theirs.None? { return false; }
      if mine == theirs {
        files := WithFile(files, name, prior);
        return true;
      }
      var row := OwnedRow(prior, name);
      if row.None? { return false; }
      var section := GetSection(content.value, name);
      var edited := content.value.fields;
      if name == ImportManifest {
        if !section.JArr? { return false; }
        var rows := ForeignRows(section.items);
        if row.value != JNull { rows := rows + [row.value]; } else { assert rows == rows + []; }
        edited := edited["imports" := JArr(rows)];
      } else {
        if !section.JObj? { return false; }
        var inner := section.fields;
        if row.value == JNull {
          inner := inner - {OwnedKey(name)};
        } else {
          inner := inner[OwnedKey(name) := row.value];
        }
        edited := edited[Section(name) := JObj(inner)];
      }
      if prior.None? && Compactable(JObj(edited), name) {
        files := WithFile(files, name, None);
      } else {
        files := WithFile(files, name, Some(Dumps(JObj(edited))));
      }
      return true;
    }

    /** `_restore_owned_registry_rows`: the registries in the order of the snapshot, then the receipt. */
    method RestoreOwnedRows(ghost plan: Plan, ghost agyUninstall: Uninstall) returns (ok: bool)
      modifies `files
      ensures RunStages(old(Now()), plan, agyUninstall, 2, STAGES - 2)
           == if ok then RunStages(Now(), plan, agyUninstall, 6, STAGES - 6) else (Now(), Returned(false))
    {
      hide RunStages, RestoreRegistry, RestoreReceipt;
      var names := [ImportManifest, ConfigJson, McpConfig];
      for i := 0 to |names|
        invariant RunStages(old(Now()), plan, agyUninstall, 2, STAGES - 2)
          == RunStages(Now(), plan, agyUninstall, 2 + i, STAGES - (2 + i))
      {
        NextStage(Now(), plan, agyUninstall, 2 + i);
        ok := RestoreRow(names[i]);
        if !ok { return; }
      }
      NextStage(Now(), plan, agyUninstall, 5);
      var receipt := RestoreReceipt(files.receipt, journal.prior.receipt);
      if receipt.None? { return false; }
      files := files.(receipt := receipt.value);
      return true;
    }

    /** `restore_recovery_snapshot` */
    method RestoreRecoverySnapshot(agyUninstall: Uninstall, expected: Json, undoCommitted: bool) returns (done: bool)
      modifies this
      ensures Rollback(old(Now()), agyUninstall, expected, undoCommitted, STAGES) == (Now(), Returned(done))
    {
      hide RunStages, RestoreRegistry, RestoreReceipt, Gate, ListedRow, McpEntry, OwnedMatch, MakePlan;
      if journal.committed && !undoCommitted { return true; }
      var machine := Machine(target, files);
      var registry, mcp := ListedRow(files.imports), McpEntry(files.mcp);
      if registry.None? || mcp.None? { return false; }
      if IsPrior(machine, journal, registry.value, mcp.value) && OwnedMatch(files, journal.prior) { return true; }
      if !Gate(machine, journal, registry.value, mcp.value, expected, undoCommitted) { return false; }
      var plan := MakePlan(machine, journal);
      done := RunPlan(plan, agyUninstall);
    }

    /** The part of `restore_recovery_snapshot` that writes. */
    method RunPlan(plan: Plan, agyUninstall: Uninstall) returns (done: bool)
      modifies this
      ensures RunStages(old(Now()), plan, agyUninstall, 0, STAGES) == (Now(), Returned(done))
    {
      hide RunStages, RestoreRegistry, RestoreReceipt, ListedRow, McpEntry, OwnedMatch, Restored;
      ghost var before := Now();
      var digest := Digest(journal.priorTree);
      NextStage(Now(), plan, agyUninstall, 0);
      journal := journal.(phase := RestoringPriorPlugin, intended := Some(if digest.Some? then digest.value else ""));
      NextStage(Now(), plan, agyUninstall, 1);
      if plan.removeTree {
        target := NoTree;
      } else if plan.uninstall {
        var reply := agyUninstall(Machine(target, files));
        target, files := reply.machine.target, reply.machine.files;
        if !reply.ok || target.Tree? { return false; }
      }
      assert RunStages(before, plan, agyUninstall, 0, STAGES) == RunStages(Now(), plan, agyUninstall, 2, STAGES - 2);
      var ok := RestoreOwnedRows(plan, agyUninstall);
      if !ok { return false; }
      NextStage(Now(), plan, agyUninstall, 6);
      if plan.putBack {
        if target.Tree? { return false; }
        target := journal.priorTree;
      }
      LastStage(Now(), plan, agyUninstall);
      done := Restored(Now());
    }

    /**
     `seal_recovery_post_state`; false where it raises, with the journal as it was.  A sealed machine
     is let into a rollback, also into the undoing of a committed one, until something changes.
     */
    method SealPostState(demandAbsent: bool) returns (ok: bool)
      modifies `journal
      ensures !ok ==> journal == old(journal)
      ensures ok ==> ListedRow(files.imports).Some? && McpEntry(files.mcp).Some?
      ensures ok ==> forall expected, undo ::
        Gate(Machine(target, files), journal, ListedRow(files.imports).value, McpEntry(files.mcp).value, expected, undo)
      ensures ok ==> journal == old(journal).(post := journal.post)
      ensures ok && demandAbsent ==> NothingLeft(Machine(target, files))
      ensures SealStage(old(Now()), demandAbsent) == if ok then Go(Now()) else Stop(Now(), URaised)
    {
      hide ListedRow, McpEntry, MixedMatch, WriteAheadMatch, RollbackInProgress, IncompleteFresh, RefreshGap;
      var registry, mcp := ListedRow(files.imports), McpEntry(files.mcp);
      if registry.None? || mcp.None? { return false; }
      if demandAbsent && (target.Tree? || registry.value != JNull || mcp.value != JNull) { return false; }
      journal := journal.(post := Sealed(target, registry.value, mcp.value, files));
      return true;
    }

    /** A refused step: the rollback runs and the uninstall answers false. */
    method RollBackAndRefuse(agy: Commands, expected: Json) returns (outcome: UOutcome)
      modifies this
      ensures GiveUp(old(Now()), agy, expected) == Stop(Now(), outcome)
    {
      hide Rollback;
      var _ := RestoreRecoverySnapshot(agy.uninstall, expected, false);
      return UReturned(false);
    }

    /** The removal of the server and the first seal. */
    method RemoveMcp(agy: Commands, expected: Json, ids: Ids) returns (outcome: Option<UOutcome>)
      modifies this
      ensures UStages(old(Now()), agy, expected, ids, 0, UNINSTALL_STEPS)
           == if outcome.None? then UStages(Now(), agy, expected, ids, 3, UNINSTALL_STEPS - 3)
              else (Now(), outcome.value)
    {
      hide UStages, GiveUp, McpEntry, ListedRow, SealStage, Gate;
      var mcp := McpEntry(files.mcp);
      NextStep(Now(), agy, expected, ids, 0);
      if mcp.None? { return Some(URaised); }
      if mcp.value != ids.mcp && mcp.value != JNull { return Some(UReturned(false)); }
      journal := journal.(phase := RemovingMcp);
      NextStep(Now(), agy, expected, ids, 1);
      if mcp.value == ids.mcp {
        var reply := agy.removeMcp(Machine(target, files));
        target, files := reply.machine.target, reply.machine.files;
        if !reply.ok {
          var refused := RollBackAndRefuse(agy, expected);
          return Some(refused);
        }
      }
      NextStep(Now(), agy, expected, ids, 2);
      var ok := SealPostState(false);
      return if ok then None else Some(URaised);
    }

    /** The removal of the plugin and the second seal. */
    method RemovePlugin(agy: Commands, expected: Json, ids: Ids) returns (outcome: Option<UOutcome>)
      modifies this
      ensures UStages(old(Now()), agy, expected, ids, 3, UNINSTALL_STEPS - 3)
           == if outcome.None? then UStages(Now(), agy, expected, ids, 6, UNINSTALL_STEPS - 6)
              else (Now(), outcome.value)
    {
      hide UStages, GiveUp, McpEntry, ListedRow, SealStage, Gate;
      var registry, digest := ListedRow(files.imports), Digest(target);
      NextStep(Now(), agy, expected, ids, 3);
      if registry.None? { return Some(URaised); }
      if !(digest == Some(ids.digest) && registry.value == ids.registry)
          && !(digest == None && registry.value == JNull) {
        return Some(UReturned(false));
      }
      journal := journal.(phase := RemovingPlugin);
      NextStep(Now(), agy, expected, ids, 4);
      if digest == Some(ids.digest) {
        var reply := agy.uninstall(Machine(target, files));
        target, files := reply.machine.target, reply.machine.files;
        if !reply.ok || target.Tree? {
          var refused := RollBackAndRefuse(agy, expected);
          return Some(refused);
        }
      }
      NextStep(Now(), agy, expected, ids, 5);
      var ok := SealPostState(false);
      return if ok then None else Some(URaised);
    }

    /** The receipt, the last seal and the commit. */
    method RemoveReceiptAndCommit(agy: Commands, expected: Json, ids: Ids) returns (outcome: UOutcome)
      modifies this
      ensures UStages(old(Now()), agy, expected, ids, 6, UNINSTALL_STEPS - 6) == (Now(), outcome)
    {
      hide UStages, GiveUp, McpEntry, ListedRow, SealStage, ReceiptIs, NothingLeft, Gate;
      NextStep(Now(), agy, expected, ids, 6);
      journal := journal.(phase := RemovingReceipt);
      NextStep(Now(), agy, expected, ids, 7);
      if files.receipt.Some? {
        if !ReceiptIs(Machine(target, files), ids) {
          outcome := RollBackAndRefuse(agy, expected);
          return;
        }
        files := files.(receipt := None);
      }
      NextStep(Now(), agy, expected, ids, 8);
      var ok := SealPostState(true);
      if !ok { return URaised; }
      NextStep(Now(), agy, expected, ids, 9);
      var registry, mcp := ListedRow(files.imports), McpEntry(files.mcp);
      if registry.None? || mcp.None? { return URaised; }
      if target.Tree? || registry.value != JNull || mcp.value != JNull || files.receipt.Some? {
        outcome := RollBackAndRefuse(agy, expected);
        return;
      }
      journal := journal.(committed := true);
      LastStep(Now(), agy, expected, ids);
      return UReturned(true);
    }

    /** `uninstall_owned_plugin` on a durable journal, keeping the committed one. */
    method UninstallOwnedPlugin(agy: Commands, expected: Json, ids: Ids) returns (outcome: UOutcome)
      modifies this
      ensures UninstallRun(old(Now()), agy, expected, ids, UNINSTALL_STEPS) == (Now(), outcome)
    {
      hide UStages, CommittedMatches, JournalIs;
      if journal.committed { return UReturned(CommittedMatches(Now(), ids)); }
      if !JournalIs(journal, ids) { return UReturned(false); }
      var left := RemoveMcp(agy, expected, ids);
      if left.Some? { return left.value; }
      left := RemovePlugin(agy, expected, ids);
      if left.Some? { return left.value; }
      outcome := RemoveReceiptAndCommit(agy, expected, ids);
    }
  }

  lemma LastStage(w: World, plan: Plan, agyUninstall: Uninstall)
    ensures RunStages(w, plan, agyUninstall, STAGES, 0) == (w, Returned(Restored(w)))
  {
    hide Restored;
  }

  lemma LastStep(w: World, agy: Commands, expected: Json, ids: Ids)
    ensures UStages(w, agy, expected, ids, UNINSTALL_STEPS, 0) == (w, UReturned(true))
  {}
}
