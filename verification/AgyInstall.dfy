/** A first-time install up to every point it can be killed at, and where its rollback is let in. */
module AgyInstall {
  import opened Options
  import opened AgyRegistry
  import opened AgyMachine
  import opened AgyGate
  import opened AgyRollback

  datatype Agy = Agy(install: Machine -> Machine, enable: Machine -> Machine, registerMcp: Machine -> Machine,
                     uninstall: Uninstall)

  // ---------- what the commands promise ----------

  predicate Installed(m: Machine, after: Machine, digest: string) {
    && after.target.Tree? && after.target.digest == Some(digest)
    && WellFormed(after.files.imports, ImportManifest)
    && OwnedRow(after.files.imports, ImportManifest).Some? && OwnedRow(after.files.imports, ImportManifest).value.JObj?
    && after.files == m.files.(imports := after.files.imports) && SameOthers(m.files, after.files)
  }

  predicate Enabled(m: Machine, after: Machine) {
    && WellFormed(after.files.config, ConfigJson)
    && after == m.(files := m.files.(config := after.files.config)) && SameOthers(m.files, after.files)
  }

  predicate McpRegistered(m: Machine, after: Machine, expected: Json) {
    && WellFormed(after.files.mcp, McpConfig) && McpEntry(after.files.mcp) == Some(expected)
    && after == m.(files := m.files.(mcp := after.files.mcp)) && SameOthers(m.files, after.files)
  }

  ghost predicate AgyWorks(agy: Agy, digest: string, expected: Json) {
    && expected.JObj? && UninstallWorks(agy.uninstall)
    && (forall m: Machine :: Editable(m.files) ==> Installed(m, agy.install(m), digest))
    && (forall m: Machine :: Editable(m.files) ==> Enabled(m, agy.enable(m)))
    && (forall m: Machine :: Editable(m.files) ==> McpRegistered(m, agy.registerMcp(m), expected))
  }

  predicate Editable(fs: Files) {
    WellFormed(fs.imports, ImportManifest) && WellFormed(fs.config, ConfigJson) && WellFormed(fs.mcp, McpConfig)
  }

  // ---------- the contracts can be met ----------

  /** The registry with its row replaced. */
  function PutIn(f: File, name: Registry, row: Json): File
    requires WellFormed(f, name)
  {
    Some(Dumps(PutRow(Content(f).value, name, row).value))
  }

  lemma PutInFacts(f: File, name: Registry, row: Json)
    requires WellFormed(f, name) && RowFits(row, name)
    ensures var g := PutIn(f, name, row);
      WellFormed(g, name) && OwnedRow(g, name) == Some(row) && Others(g, name) == Others(f, name)
    ensures name == McpConfig && (row == JNull || row.JObj?) ==> McpEntry(PutIn(f, name, row)) == Some(row)
  {
    hide Foreign, Owned, IsOwned;
    PutRowFacts(Content(f).value, name, row);
    if name == McpConfig && (row == JNull || row.JObj?) {
      var edited := PutRow(Content(f).value, name, row).value;
      assert Section(name) in edited.fields;
    }
  }

  function DirectUninstall(m: Machine): Reply {
    if WellFormed(m.files.imports, ImportManifest) && WellFormed(m.files.config, ConfigJson)
    then Reply(Machine(NoTree, m.files.(imports := PutIn(m.files.imports, ImportManifest, JNull))), true)
    else Reply(m, false)
  }

  lemma DirectUninstallWorks()
    ensures UninstallWorks(DirectUninstall)
  {
    hide WellFormed, OwnedRow, Others, PutIn;
    forall m: Machine | WellFormed(m.files.imports, ImportManifest) && WellFormed(m.files.config, ConfigJson)
      ensures Uninstalled(m, DirectUninstall(m).machine)
    {
      PutInFacts(m.files.imports, ImportManifest, JNull);
    }
  }

  /** Commands that edit the registries directly. */
  function DirectAgy(digest: string, row: Json, expected: Json): Agy
  {
    Agy(
      (m: Machine) => if Editable(m.files)
        then Machine(Tree(Some(digest), {}), m.files.(imports := PutIn(m.files.imports, ImportManifest, row))) else m,
      (m: Machine) => m,
      (m: Machine) => if Editable(m.files)
        then m.(files := m.files.(mcp := PutIn(m.files.mcp, McpConfig, expected))) else m,
      DirectUninstall)
  }

  lemma ContractsCanBeMet(digest: string, row: Json, expected: Json)
    requires IsOwned(row) && expected.JObj?
    ensures AgyWorks(DirectAgy(digest, row, expected), digest, expected)
  {
    hide WellFormed, OwnedRow, Others, PutIn, McpEntry, UninstallWorks;
    var agy := DirectAgy(digest, row, expected);
    forall m: Machine | Editable(m.files) ensures Installed(m, agy.install(m), digest) {
      PutInFacts(m.files.imports, ImportManifest, row);
    }
    forall m: Machine | Editable(m.files) ensures McpRegistered(m, agy.registerMcp(m), expected) {
      PutInFacts(m.files.mcp, McpConfig, expected);
    }
    DirectUninstallWorks();
  }

  // ---------- the install ----------

  /** A machine without the plugin, as the install accepts it. */
  predicate Fresh(m: Machine) {
    && m.target == NoTree && ListedRow(m.files.imports) == Some(JNull) && McpEntry(m.files.mcp).Some?
    && Recorded(m.files.imports, ImportManifest) && Recorded(m.files.config, ConfigJson)
    && Recorded(m.files.mcp, McpConfig)
    && (m.files.receipt.None? || m.files.receipt.value.Readable?)
  }

  /** `persist_recovery_snapshot` on such a machine. */
  function Persisted(m: Machine): Journal
    requires Fresh(m)
  {
    Journal(m.files, NoTree, JNull, McpEntry(m.files.mcp).value, NoPhase, None, Unsealed, false)
  }

  function Mark(w: World, phase: Phase, digest: string): World {
    w.(journal := w.journal.(phase := phase, intended := Some(digest)))
  }

  /** `seal_recovery_post_state` */
  function Seal(w: World): World
    requires ListedRow(w.machine.files.imports).Some? && McpEntry(w.machine.files.mcp).Some?
  {
    var m := w.machine;
    w.(journal := w.journal.(post :=
                             Sealed(m.target, ListedRow(m.files.imports).value, McpEntry(m.files.mcp).value, m.files)))
  }

  const INSTALL_STEPS := 10

  /** The k-th durable step of a first-time install that meets no failure. */
  function InstallStep(w: World, agy: Agy, digest: string, references: seq<string>, k: nat): World {
    if k == 1 then Mark(w, InstallingPlugin, digest)
    else if k == 2 then w.(machine := agy.install(w.machine))
    else if k == 3 then Mark(w, EnablingPlugin, digest)
    else if k == 4 then w.(machine := agy.enable(w.machine))
    else if k == 5 then Mark(w, RegisteringMcp, digest)
    else if k == 6 then w.(machine := agy.registerMcp(w.machine))
    else if k == 8 then Mark(w, WritingReceipt, digest)
    else
      match (ListedRow(w.machine.files.imports), McpEntry(w.machine.files.mcp))
      case (Some(registry), Some(mcp)) =>
        if k == 9 then
          var receipt := Some(Readable(Receipt(digest, registry, mcp, references)));
          w.(machine := w.machine.(files := w.machine.files.(receipt := receipt)))
        else Seal(w)
      case _ => w
  }

  /** The world after k of them. */
  function InstallAfter(m: Machine, agy: Agy, digest: string, references: seq<string>, k: nat): World
    requires Fresh(m) && k <= INSTALL_STEPS
  {
    if k == 0 then World(m, Persisted(m))
    else InstallStep(InstallAfter(m, agy, digest, references, k - 1), agy, digest, references, k)
  }

  lemma Unfold(m: Machine, agy: Agy, digest: string, references: seq<string>, k: nat)
    requires Fresh(m) && 0 < k <= INSTALL_STEPS
    ensures InstallAfter(m, agy, digest, references, k)
      == InstallStep(InstallAfter(m, agy, digest, references, k - 1), agy, digest, references, k)
    ensures InstallAfter(m, agy, digest, references, 0) == World(m, Persisted(m))
  {
    hide InstallStep, Fresh;
  }

  /** An installed machine, sealed or with only its receipt still to be sealed. */
  predicate SealedInstall(m: Machine, digest: string, expected: Json, w: World) {
    var n, j := w.machine, w.journal;
    && FirstInstall(j) && j.prior == m.files
    && n.target.Tree? && n.target.digest == Some(digest) && j.post.target == n.target && j.intended == Some(digest)
    && WellFormed(n.files.imports, ImportManifest) && WellFormed(n.files.config, ConfigJson)
    && WellFormed(n.files.mcp, McpConfig)
    && ListedRow(n.files.imports) == Some(j.post.registry) && McpEntry(n.files.mcp) == Some(j.post.mcp)
    && j.post.mcp == expected
    && j.post.files == n.files.(receipt := j.post.files.receipt)
  }

  lemma FreshEditable(m: Machine)
    requires Fresh(m)
    ensures Editable(m.files)
  {
    hide WellFormed, ListedRow, McpEntry, OwnedRow;
  }

  /** The machine of an install after the three commands. */
  predicate Commanded(m: Machine, n: Machine, digest: string, expected: Json) {
    && n.target.Tree? && n.target.digest == Some(digest)
    && WellFormed(n.files.imports, ImportManifest) && WellFormed(n.files.config, ConfigJson)
    && WellFormed(n.files.mcp, McpConfig)
    && ListedRow(n.files.imports).Some? && McpEntry(n.files.mcp) == Some(expected)
    && n.files.receipt == m.files.receipt && SameOthers(m.files, n.files)
  }

  lemma ThreeCommands(m: Machine, agy: Agy, digest: string, expected: Json)
    requires Fresh(m) && AgyWorks(agy, digest, expected)
    ensures Commanded(m, agy.registerMcp(agy.enable(agy.install(m))), digest, expected)
  {
    hide ListedRow, McpEntry, OwnedRow, WellFormed, Recorded, Others, UninstallWorks;
    FreshEditable(m);
    var a := agy.install(m);
    assert Installed(m, a, digest);
    ListedIsOwned(a.files.imports);
    var b := agy.enable(a);
    assert Enabled(a, b);
    var c := agy.registerMcp(b);
    assert McpRegistered(b, c, expected);
  }

  lemma BeforeSeal(m: Machine, agy: Agy, digest: string, references: seq<string>)
    requires Fresh(m)
    ensures InstallAfter(m, agy, digest, references, 6)
         == World(agy.registerMcp(agy.enable(agy.install(m))),
                  Persisted(m).(phase := RegisteringMcp, intended := Some(digest)))
    ensures InstallAfter(m, agy, digest, references, 7)
         == InstallStep(InstallAfter(m, agy, digest, references, 6), agy, digest, references, 7)
  {
    hide ListedRow, McpEntry, WellFormed, Recorded, InstallAfter, Fresh;
    Unfold(m, agy, digest, references, 1);
    Unfold(m, agy, digest, references, 2);
    Unfold(m, agy, digest, references, 3);
    Unfold(m, agy, digest, references, 4);
    Unfold(m, agy, digest, references, 5);
    Unfold(m, agy, digest, references, 6);
    Unfold(m, agy, digest, references, 7);
  }

  lemma InstallSeals(m: Machine, agy: Agy, digest: string, references: seq<string>, expected: Json)
    requires Fresh(m) && AgyWorks(agy, digest, expected)
    ensures var w := InstallAfter(m, agy, digest, references, 7);
      && SealedInstall(m, digest, expected, w) && w.journal.phase == RegisteringMcp
      && w.machine.files.receipt == m.files.receipt && w.journal.post.files == w.machine.files
      && SameOthers(m.files, w.machine.files)
  {
    hide ListedRow, McpEntry, OwnedRow, WellFormed, Recorded, Others, InstallAfter, AgyWorks;
    ThreeCommands(m, agy, digest, expected);
    BeforeSeal(m, agy, digest, references);
  }

  lemma SealedPieces(m: Machine, digest: string, expected: Json, w: World)
    requires SealedInstall(m, digest, expected, w)
    requires w.machine.files.receipt.None? || w.machine.files.receipt.value.Readable?
    ensures Pieces(w) && !IncompleteFresh(w.machine, w.journal)
  {
    hide ListedRow, McpEntry, WellFormed, Recorded;
  }

  lemma SealedGate(m: Machine, digest: string, expected: Json, w: World)
    requires SealedInstall(m, digest, expected, w) && w.journal.post.files == w.machine.files
    ensures GoesAhead(w, expected)
  {
    hide ListedRow, McpEntry, WellFormed, Recorded, MixedMatch, WriteAheadMatch, RollbackInProgress, IncompleteFresh;
    hide RefreshGap;
  }

  /** With the receipt written and not sealed, only the write-ahead check can let the rollback in. */
  lemma ReceiptGate(m: Machine, digest: string, expected: Json, w: World, references: seq<string>)
    requires SealedInstall(m, digest, expected, w) && w.journal.phase == WritingReceipt && expected.JObj?
    requires w.journal.post.files.receipt == m.files.receipt
    requires w.machine.files.receipt == Some(Readable(Receipt(digest, w.journal.post.registry, expected, references)))
    ensures GoesAhead(w, expected) <==>
      w.machine.files.receipt == m.files.receipt || IntendedTarget(w.machine, w.journal, PostRegistry(w.journal))
  {
    hide ListedRow, McpEntry, WellFormed, Recorded, IntendedTarget;
  }

  /** The steps after the first seal. */
  lemma AfterSeal(m: Machine, agy: Agy, digest: string, references: seq<string>, expected: Json)
    requires Fresh(m) && SealedInstall(m, digest, expected, InstallAfter(m, agy, digest, references, 7))
    ensures var w7 := InstallAfter(m, agy, digest, references, 7);
      var w8 := InstallAfter(m, agy, digest, references, 8);
      var w9 := InstallAfter(m, agy, digest, references, 9);
      var w10 := InstallAfter(m, agy, digest, references, 10);
      && w8 == Mark(w7, WritingReceipt, digest)
      && w9 == w8.(machine := w8.machine.(files := w8.machine.files.(
                     receipt := Some(Readable(Receipt(digest, w8.journal.post.registry, expected, references))))))
      && w10 == w9.(journal := w9.journal.(post := w9.journal.post.(files := w9.machine.files)))
  {
    hide ListedRow, McpEntry, WellFormed, Recorded, Fresh, FirstInstall, InstallAfter;
    Unfold(m, agy, digest, references, 8);
    Unfold(m, agy, digest, references, 9);
    Unfold(m, agy, digest, references, 10);
  }

  lemma IntendedExactly(w: World)
    requires w.machine.target.Tree? && w.journal.intended.Some? && w.machine.target.digest == w.journal.intended
    requires ListedRow(w.machine.files.imports).Some? && w.journal.phase == WritingReceipt
    ensures IntendedTarget(w.machine, w.journal, ListedRow(w.machine.files.imports).value) <==>
      && RowOfTarget(ListedRow(w.machine.files.imports).value, w.machine.target)
      && NotDisabled(w.machine.files.config)
  {
    hide RowOfTarget, NotDisabled, RowComponents, PluginEnabled, ListedRow;
    IntendedRow(ListedRow(w.machine.files.imports).value, w.machine.target);
    EnabledIsNotDisabled(w.machine.files.config);
  }

  /**
   From the first seal on, a kill of the install leaves a world whose rollback is let in, except in
   one window: the receipt is written and not yet sealed.  There it is let in exactly when the
   listed row is Antigravity's own with the components of the directory and the config does not disable it.
   */
  lemma SealedInstallGoesAhead(m: Machine, agy: Agy, digest: string, references: seq<string>, expected: Json, k: nat)
    requires Fresh(m) && AgyWorks(agy, digest, expected) && 7 <= k <= INSTALL_STEPS
    ensures var w := InstallAfter(m, agy, digest, references, k);
      && Pieces(w) && !IncompleteFresh(w.machine, w.journal) && SameOthers(m.files, w.machine.files)
      && w.journal.prior == m.files && w.journal.priorMcp == McpEntry(m.files.mcp).value
      && (k != 9 ==> GoesAhead(w, expected))
      && w.machine.target.Tree? && ListedRow(w.machine.files.imports).Some?
      && (k == 9 ==> (GoesAhead(w, expected) <==>
            || w.machine.files.receipt == m.files.receipt
            || (RowOfTarget(ListedRow(w.machine.files.imports).value, w.machine.target)
                && NotDisabled(w.machine.files.config))))
  {
    hide RowOfTarget, NotDisabled;
    hide InstallAfter, ListedRow, McpEntry, OwnedRow, WellFormed, Recorded, Others, UninstallWorks, Installed, Enabled;
    hide McpRegistered;
    hide Pieces, GoesAhead, IncompleteFresh, IntendedTarget;
    InstallSeals(m, agy, digest, references, expected);
    AfterSeal(m, agy, digest, references, expected);
    var w := InstallAfter(m, agy, digest, references, k);
    assert SealedInstall(m, digest, expected, w);
    SealedPieces(m, digest, expected, w);
    if k == 9 {
      ReceiptGate(m, digest, expected, w, references);
      IntendedExactly(w);
    } else {
      SealedGate(m, digest, expected, w);
    }
  }

  /**
   Kill the install after any step from its first seal on, then the rollback as often as you like: what is let
   in restores the machine.
   */
  lemma InstallRollsBack(m: Machine, agy: Agy, digest: string, references: seq<string>, expected: Json, k: nat,
                         kills: seq<Kill>, end: World)
    requires Fresh(m) && AgyWorks(agy, digest, expected) && 7 <= k <= INSTALL_STEPS
    requires k == 9 ==> var w := InstallAfter(m, agy, digest, references, 9);
      && w.machine.target.Tree? && ListedRow(w.machine.files.imports).Some?
      && RowOfTarget(ListedRow(w.machine.files.imports).value, w.machine.target) && NotDisabled(w.machine.files.config)
    requires KilledRuns(InstallAfter(m, agy, digest, references, k), agy.uninstall, expected, kills, end)
    ensures var (t, outcome) := Rollback(end, agy.uninstall, expected, false, STAGES);
      && outcome == Returned(true) && Restored(t) && t.machine.target == NoTree
      && SameOthers(end.machine.files, t.machine.files)
  {
    hide InstallAfter, RowOfTarget, NotDisabled, GoesAhead, Pieces, Rollback, Restored, Fresh, Others, IncompleteFresh;
    hide KilledRuns;
    SealedInstallGoesAhead(m, agy, digest, references, expected, k);
    RollbackSurvivesKills(InstallAfter(m, agy, digest, references, k), agy.uninstall, expected, kills, end);
  }
}
