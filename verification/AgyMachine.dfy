/**
 The machine-global state that omg_cli/antigravity_install.py changes, its recovery journal, and the
 rollback as a sequence of durable stages.  `agy` commands are parameters: functions on the machine
 that succeed and keep a contract.  A registry row stands for its own hash.
 */
module AgyMachine {
  import opened Options
  import opened AgyRegistry

  /** The plugin directory: absent, or present with a package digest if it is a whole package. */
  datatype Tree = NoTree | Tree(digest: Option<string>, components: set<string>)

  datatype Receipt = Receipt(digest: string, registry: Json, mcp: Json, references: seq<string>)

  /** The text of the ownership receipt, by what `load_ownership_receipt` makes of it. */
  datatype ReceiptText = EmptyReceipt | Unreadable(text: nat) | Readable(receipt: Receipt)

  type ReceiptFile = Option<ReceiptText>

  datatype Files = Files(imports: File, config: File, mcp: File, receipt: ReceiptFile)

  datatype Machine = Machine(target: Tree, files: Files)

  datatype Phase =
    | NoPhase | InstallingPlugin | EnablingPlugin | RegisteringMcp | WritingReceipt
    | RestoringPriorPlugin | RemovingMcp | RemovingPlugin | RemovingReceipt

  /** The post-state of a transaction, once `seal_recovery_post_state` has recorded it. */
  datatype Post = Unsealed | Sealed(target: Tree, registry: Json, mcp: Json, files: Files)

  datatype Journal = Journal(
    prior: Files, priorTree: Tree, priorRegistry: Json, priorMcp: Json,
    phase: Phase, intended: Option<string>, post: Post, committed: bool)

  datatype World = World(machine: Machine, journal: Journal)

  // ---------- reading the machine ----------

  function FileOf(fs: Files, name: Registry): File {
    match name
    case ImportManifest => fs.imports
    case ConfigJson => fs.config
    case McpConfig => fs.mcp
  }

  function WithFile(fs: Files, name: Registry, f: File): Files {
    match name
    case ImportManifest => fs.(imports := f)
    case ConfigJson => fs.(config := f)
    case McpConfig => fs.(mcp := f)
  }

  function Digest(t: Tree): Option<string> { if t.NoTree? then None else t.digest }

  /** `agy plugin list`, read from the import manifest: the row of this plugin, JNull for none; None where it fails. */
  function ListedRow(f: File): Option<Json> {
    match Content(f)
    case None => None
    case Some(payload) =>
      if !payload.JObj? then None
      else
        match ImportRows(payload)
        case None => None
        case Some(rows) => Some(if |Owned(rows)| > 0 then Owned(rows)[0] else JNull)
  }

  /** `_mcp_entry`: the row of this plugin's server, JNull for none; None where it raises. */
  function McpEntry(f: File): Option<Json> {
    match f
    case None => Some(JNull)
    case Some(b) =>
      match Loads(b)
      case None => None
      case Some(payload) =>
        if !payload.JObj? || Section(McpConfig) !in payload.fields || !payload.fields[Section(McpConfig)].JObj?
        then None
        else
          var servers := payload.fields[Section(McpConfig)].fields;
          if LIVE_PROBE_SERVER !in servers then Some(JNull)
          else if servers[LIVE_PROBE_SERVER].JObj? then Some(servers[LIVE_PROBE_SERVER]) else None
  }

  /** `_enabled` */
  predicate PluginEnabled(f: File) {
    match f
    case None => true
    case Some(b) =>
      match Loads(b)
      case None => false
      case Some(payload) =>
        if payload.JObj? && "plugins" in payload.fields && payload.fields["plugins"].JObj?
           && PLUGIN_NAME in payload.fields["plugins"].fields && payload.fields["plugins"].fields[PLUGIN_NAME].JObj?
        then
          var row := payload.fields["plugins"].fields[PLUGIN_NAME].fields;
          !("enabled" in row && row["enabled"] == JBool(false))
        else true
  }

  function ReceiptBytes(f: ReceiptFile): ReceiptText {
    if f.None? then EmptyReceipt else f.value
  }

  predicate OwnedMatch(fs: Files, prior: Files) {
    && RowsMatch(fs.imports, prior.imports, ImportManifest)
    && RowsMatch(fs.config, prior.config, ConfigJson)
    && RowsMatch(fs.mcp, prior.mcp, McpConfig)
    && ReceiptBytes(fs.receipt) == ReceiptBytes(prior.receipt)
  }

  /** The receipt file of `_restore_owned_registry_rows`; None where it raises. */
  function RestoreReceipt(current: ReceiptFile, prior: ReceiptFile): Option<ReceiptFile> {
    if ReceiptBytes(current) != ReceiptBytes(prior) && current.Some? && !current.value.Readable? then None
    else Some(prior)
  }

  // ---------- the gate of the rollback ----------

  function PhaseLevel(p: Phase): nat {
    match p
    case InstallingPlugin => 1
    case EnablingPlugin => 2
    case RegisteringMcp => 3
    case WritingReceipt => 4
    case _ => 0
  }

  function PostDigest(j: Journal): Option<string> { if j.post.Sealed? then Digest(j.post.target) else None }
  function PostRegistry(j: Journal): Json { if j.post.Sealed? then j.post.registry else JNull }
  function PostMcp(j: Journal): Json { if j.post.Sealed? then j.post.mcp else JNull }

  /** Present or absent as before the transaction, with the digest of before. */
  predicate TargetIsPrior(m: Machine, j: Journal) {
    Digest(m.target) == Digest(j.priorTree) && (m.target.NoTree? <==> j.priorTree.NoTree?)
  }

  predicate TargetIsPost(m: Machine, j: Journal) {
    j.post.Sealed? && Digest(m.target) == Digest(j.post.target) && (m.target.NoTree? <==> j.post.target.NoTree?)
  }

  predicate IsPrior(m: Machine, j: Journal, registry: Json, mcp: Json) {
    TargetIsPrior(m, j) && registry == j.priorRegistry && mcp == j.priorMcp
  }

  predicate SealedMatch(m: Machine, j: Journal, registry: Json, mcp: Json) {
    TargetIsPost(m, j) && registry == j.post.registry && mcp == j.post.mcp && m.files == j.post.files
  }

  predicate MixedMatch(m: Machine, j: Journal, registry: Json, mcp: Json) {
    && j.post.Sealed? && (TargetIsPrior(m, j) || TargetIsPost(m, j))
    && registry in {j.priorRegistry, j.post.registry} && mcp in {j.priorMcp, j.post.mcp}
    && m.files.imports in {j.prior.imports, j.post.files.imports}
    && m.files.config in {j.prior.config, j.post.files.config}
    && m.files.mcp in {j.prior.mcp, j.post.files.mcp} && m.files.receipt in {j.prior.receipt, j.post.files.receipt}
  }

  predicate UnchangedFiles(m: Machine, j: Journal) {
    var level := PhaseLevel(j.phase);
    && (level >= 2 || m.files.config == j.prior.config)
    && (level >= 3 || m.files.mcp == j.prior.mcp)
    && (level >= 4 || m.files.receipt == j.prior.receipt)
  }

  /** The component names of a listed row. */
  function RowComponents(row: Json): set<string> {
    if row.JObj? && "components" in row.fields && row.fields["components"].JArr?
    then set j | j in row.fields["components"].items && j.JStr? :: j.s else {}
  }

  /** The tree the journal intends is in place and registered as it should be. */
  predicate IntendedTarget(m: Machine, j: Journal, registry: Json) {
    && j.intended.Some? && m.target.Tree? && m.target.digest == j.intended
    && registry.JObj? && "source" in registry.fields && registry.fields["source"] == JStr("antigravity")
    && RowComponents(registry) == m.target.components
    && (PhaseLevel(j.phase) < 2 || PluginEnabled(m.files.config))
  }

  predicate WriteAheadMatch(m: Machine, j: Journal, registry: Json, mcp: Json, expected: Json) {
    && PhaseLevel(j.phase) > 0 && IntendedTarget(m, j, registry) && UnchangedFiles(m, j)
    && (mcp == j.priorMcp || (PhaseLevel(j.phase) >= 3 && mcp != JNull && mcp == expected))
    && (m.files.receipt == j.prior.receipt
        || (PhaseLevel(j.phase) >= 4 && m.files.receipt.Some? && m.files.receipt.value.Readable?
            && var r := m.files.receipt.value.receipt;
               Some(r.digest) == j.intended && r.registry == registry && r.mcp == mcp))
  }

  predicate RollbackInProgress(m: Machine, j: Journal, registry: Json, mcp: Json) {
    && j.phase == RestoringPriorPlugin
    && Digest(m.target) in {None, Digest(j.priorTree), PostDigest(j)}
    && registry in {j.priorRegistry, PostRegistry(j)} && mcp in {j.priorMcp, PostMcp(j)}
  }

  predicate IncompleteFresh(m: Machine, j: Journal) {
    j.priorTree.NoTree? && m.target.Tree? && m.target.digest.None? && PhaseLevel(j.phase) >= 1
  }

  predicate RefreshGap(m: Machine, j: Journal) {
    j.phase == InstallingPlugin && j.priorTree.Tree? && j.priorTree.digest.Some?
    && Digest(m.target) in {None, Digest(j.priorTree)}
  }

  /** Whether the rollback may go ahead from here. */
  predicate Gate(m: Machine, j: Journal, registry: Json, mcp: Json, expected: Json, undoCommitted: bool) {
    if undoCommitted then SealedMatch(m, j, registry, mcp)
    else
      || SealedMatch(m, j, registry, mcp) || MixedMatch(m, j, registry, mcp)
      || WriteAheadMatch(m, j, registry, mcp, expected) || RollbackInProgress(m, j, registry, mcp)
      || IncompleteFresh(m, j) || RefreshGap(m, j)
  }

  // ---------- the stages ----------

  /** What a command leaves behind, and whether it reports success. */
  datatype Reply = Reply(machine: Machine, ok: bool)

  type Uninstall = Machine -> Reply

  /** A durable stage taken, or the point where the rollback gives up. */
  datatype StageEnd = Taken(world: World) | Failed(world: World)

  /** What the rollback decides before its first durable write. */
  datatype Plan = Plan(removeTree: bool, uninstall: bool, putBack: bool)

  function MakePlan(m: Machine, j: Journal): Plan {
    var remove := IncompleteFresh(m, j) || (RefreshGap(m, j) && Digest(m.target).None? && m.target.Tree?);
    Plan(remove, !remove && !TargetIsPrior(m, j) && m.target.Tree?,
         j.priorTree.Tree? && !TargetIsPrior(m, j))
  }

  const STAGES := 7

  function Stage(w: World, plan: Plan, agyUninstall: Uninstall, k: nat): StageEnd
    requires k < STAGES
  {
    var m, j := w.machine, w.journal;
    if k == 0 then
      Taken(w.(journal := j.(phase := RestoringPriorPlugin,
                             intended := Some(if Digest(j.priorTree).Some? then Digest(j.priorTree).value else ""))))
    else if k == 1 then
      if plan.removeTree then Taken(w.(machine := m.(target := NoTree)))
      else if plan.uninstall then
        var reply := agyUninstall(m);
        var after := w.(machine := reply.machine);
        if !reply.ok || reply.machine.target.Tree? then Failed(after) else Taken(after)
      else Taken(w)
    else if k == 2 then RestoreStage(w, ImportManifest)
    else if k == 3 then RestoreStage(w, ConfigJson)
    else if k == 4 then RestoreStage(w, McpConfig)
    else if k == 5 then
      match RestoreReceipt(m.files.receipt, j.prior.receipt)
      case None => Failed(w)
      case Some(r) => Taken(w.(machine := m.(files := m.files.(receipt := r))))
    else
      if !plan.putBack then Taken(w)
      else if m.target.Tree? then Failed(w) else Taken(w.(machine := m.(target := j.priorTree)))
  }

  function RestoreStage(w: World, name: Registry): StageEnd {
    var m := w.machine;
    match RestoreRegistry(FileOf(m.files, name), FileOf(w.journal.prior, name), name)
    case None => Failed(w)
    case Some(f) => Taken(w.(machine := m.(files := WithFile(m.files, name, f))))
  }

  /** Killed by the outside, or returned with the code's answer. */
  datatype Outcome = Killed | Returned(done: bool)

  /** The stages from k on, with a kill after `budget` more of them. */
  function RunStages(w: World, plan: Plan, agyUninstall: Uninstall, k: nat, budget: nat): (World, Outcome)
    requires k <= STAGES
    decreases STAGES - k
  {
    if k == STAGES then (w, Returned(Restored(w)))
    else if budget == 0 then (w, Killed)
    else
      match Stage(w, plan, agyUninstall, k)
      case Failed(w') => (w', Returned(false))
      case Taken(w') => RunStages(w', plan, agyUninstall, k + 1, budget - 1)
  }

  /** The closing check: digest, both identities, the owned rows and the occupancy are those of before. */
  predicate Restored(w: World) {
    var m, j := w.machine, w.journal;
    && ListedRow(m.files.imports) == Some(j.priorRegistry) && McpEntry(m.files.mcp) == Some(j.priorMcp)
    && TargetIsPrior(m, j) && OwnedMatch(m.files, j.prior)
  }

  /** `restore_recovery_snapshot`, killed after `budget` durable stages. */
  function Rollback(w: World, agyUninstall: Uninstall, expected: Json, undoCommitted: bool,
                    budget: nat): (World, Outcome) {
    var m, j := w.machine, w.journal;
    if j.committed && !undoCommitted then (w, Returned(true))
    else
      match (ListedRow(m.files.imports), McpEntry(m.files.mcp))
      case (Some(registry), Some(mcp)) =>
        if IsPrior(m, j, registry, mcp) && OwnedMatch(m.files, j.prior) then (w, Returned(true))
        else if !Gate(m, j, registry, mcp, expected, undoCommitted) then (w, Returned(false))
        else RunStages(w, MakePlan(m, j), agyUninstall, 0, budget)
      case _ => (w, Returned(false))
  }
}
