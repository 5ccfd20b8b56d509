/** When `restore_recovery_snapshot` may write, said piece by piece over the machine and its record. */
module AgyGate {
  import opened Options
  import opened AgyRegistry
  import opened AgyMachine

  /** Neither is there, or both are with the same digest or with none. */
  predicate SameTarget(a: Tree, b: Tree) {
    (a.NoTree? && b.NoTree?) || (a.Tree? && b.Tree? && a.digest == b.digest)
  }

  /** What is found under the keys, one inside the other. */
  function At(j: Json, path: seq<string>): Option<Json> {
    if |path| == 0 then Some(j)
    else if j.JObj? && path[0] in j.fields then At(j.fields[path[0]], path[1..]) else None
  }

  /** The rows and the directory of the plugin are those of before the transaction; other rows may differ. */
  predicate AsBefore(m: Machine, j: Journal) {
    && SameTarget(m.target, j.priorTree)
    && ListedRow(m.files.imports) == Some(j.priorRegistry) && McpEntry(m.files.mcp) == Some(j.priorMcp)
    && OwnedRow(m.files.imports, ImportManifest) == OwnedRow(j.prior.imports, ImportManifest) != None
    && OwnedRow(m.files.config, ConfigJson) == OwnedRow(j.prior.config, ConfigJson) != None
    && OwnedRow(m.files.mcp, McpConfig) == OwnedRow(j.prior.mcp, McpConfig) != None
    && (m.files.receipt == j.prior.receipt || {m.files.receipt, j.prior.receipt} == {None, Some(EmptyReceipt)})
  }

  /** The directory, both listed rows and all four files are those of the last seal. */
  predicate AsSealed(m: Machine, j: Journal) {
    && j.post.Sealed? && SameTarget(m.target, j.post.target)
    && ListedRow(m.files.imports) == Some(j.post.registry) && McpEntry(m.files.mcp) == Some(j.post.mcp)
    && m.files.imports == j.post.files.imports && m.files.config == j.post.files.config
    && m.files.mcp == j.post.files.mcp && m.files.receipt == j.post.files.receipt
  }

  /** Each of them by itself is of before or of the last seal. */
  predicate EachOfTwo(m: Machine, j: Journal) {
    && j.post.Sealed? && (SameTarget(m.target, j.priorTree) || SameTarget(m.target, j.post.target))
    && (ListedRow(m.files.imports) == Some(j.priorRegistry) || ListedRow(m.files.imports) == Some(j.post.registry))
    && (McpEntry(m.files.mcp) == Some(j.priorMcp) || McpEntry(m.files.mcp) == Some(j.post.mcp))
    && (m.files.imports == j.prior.imports || m.files.imports == j.post.files.imports)
    && (m.files.config == j.prior.config || m.files.config == j.post.files.config)
    && (m.files.mcp == j.prior.mcp || m.files.mcp == j.post.files.mcp)
    && (m.files.receipt == j.prior.receipt || m.files.receipt == j.post.files.receipt)
  }

  /** The config file parses, or is absent, and does not switch the plugin off. */
  predicate NotDisabled(config: File) {
    config.Some? ==>
      && Loads(config.value).Some?
      && At(Loads(config.value).value, ["plugins", "oh-my-grok", "enabled"]) != Some(JBool(false))
  }

  predicate Lists(row: Json, component: string) {
    && At(row, ["components"]).Some? && At(row, ["components"]).value.JArr?
    && JStr(component) in At(row, ["components"]).value.items
  }

  /** The listed row is Antigravity's own, with exactly the components of the directory. */
  ghost predicate RowOfTarget(row: Json, target: Tree)
    requires target.Tree?
  {
    && At(row, ["source"]) == Some(JStr("antigravity"))
    && (forall c :: c in target.components <==> Lists(row, c))
  }

  /**
   An install under way: the intended package is in place and listed, and each other file is as before
   until the phase that writes it, where it may also be what that phase writes.
   */
  ghost predicate UnderWay(m: Machine, j: Journal, expected: Json)
    requires ListedRow(m.files.imports).Some? && McpEntry(m.files.mcp).Some?
  {
    var registry, mcp := ListedRow(m.files.imports).value, McpEntry(m.files.mcp).value;
    && j.phase in {InstallingPlugin, EnablingPlugin, RegisteringMcp, WritingReceipt}
    && m.target.Tree? && m.target.digest.Some? && m.target.digest == j.intended && RowOfTarget(registry, m.target)
    && (if j.phase == InstallingPlugin then m.files.config == j.prior.config else NotDisabled(m.files.config))
    && (if j.phase in {InstallingPlugin, EnablingPlugin} then m.files.mcp == j.prior.mcp && mcp == j.priorMcp
        else mcp == j.priorMcp || (mcp != JNull && mcp == expected))
    && (m.files.receipt == j.prior.receipt
        || (j.phase == WritingReceipt && m.files.receipt.Some? && m.files.receipt.value.Readable?
            && var r := m.files.receipt.value.receipt;
               Some(r.digest) == j.intended && r.registry == registry && r.mcp == mcp))
  }

  /** A rollback under way: the digest is gone, of before or sealed; each row is of before or sealed, or gone. */
  predicate RollingBackStill(m: Machine, j: Journal) {
    && j.phase == RestoringPriorPlugin
    && (m.target.Tree? && m.target.digest.Some? ==>
          || (j.priorTree.Tree? && m.target.digest == j.priorTree.digest)
          || (j.post.Sealed? && j.post.target.Tree? && m.target.digest == j.post.target.digest))
    && (ListedRow(m.files.imports) == Some(j.priorRegistry)
        || ListedRow(m.files.imports) == Some(if j.post.Sealed? then j.post.registry else JNull))
    && (McpEntry(m.files.mcp) == Some(j.priorMcp)
        || McpEntry(m.files.mcp) == Some(if j.post.Sealed? then j.post.mcp else JNull))
  }

  /** An install has left a directory that is no whole package, where there was none. */
  predicate HalfInstalled(m: Machine, j: Journal) {
    && j.phase in {InstallingPlugin, EnablingPlugin, RegisteringMcp, WritingReceipt}
    && j.priorTree.NoTree? && m.target.Tree? && m.target.digest.None?
  }

  /** A refresh has its old package, or nothing that is a package. */
  predicate HalfRefreshed(m: Machine, j: Journal) {
    && j.phase == InstallingPlugin && j.priorTree.Tree? && j.priorTree.digest.Some?
    && (m.target.Tree? && m.target.digest.Some? ==> m.target.digest == j.priorTree.digest)
  }

  ghost predicate MayWrite(m: Machine, j: Journal, expected: Json, undoCommitted: bool) {
    && ListedRow(m.files.imports).Some? && McpEntry(m.files.mcp).Some?
    && (|| AsSealed(m, j)
        || (!undoCommitted
            && (|| EachOfTwo(m, j) || UnderWay(m, j, expected) || RollingBackStill(m, j)
                || HalfInstalled(m, j) || HalfRefreshed(m, j))))
  }

  lemma AtOne(j: Json, key: string)
    ensures At(j, [key]) == if j.JObj? && key in j.fields then Some(j.fields[key]) else None
  {
    assert [key][1..] == [];
  }

  lemma AtThree(j: Json, a: string, b: string, c: string)
    ensures At(j, [a, b, c]) ==
      if j.JObj? && a in j.fields && j.fields[a].JObj? && b in j.fields[a].fields
      then At(j.fields[a].fields[b], [c]) else None
  {
    hide At;
    AtFirst(j, [a, b, c]);
    assert [a, b, c][1..] == [b, c] && [b, c][1..] == [c];
    if j.JObj? && a in j.fields { AtFirst(j.fields[a], [b, c]); }
  }

  lemma AtFirst(j: Json, path: seq<string>)
    requires |path| > 0
    ensures At(j, path) == if j.JObj? && path[0] in j.fields then At(j.fields[path[0]], path[1..]) else None
  {}

  lemma EnabledIsNotDisabled(config: File)
    ensures PluginEnabled(config) <==> NotDisabled(config)
  {
    hide At;
    if config.Some? && Loads(config.value).Some? {
      var payload := Loads(config.value).value;
      AtThree(payload, "plugins", PLUGIN_NAME, "enabled");
      if payload.JObj? && "plugins" in payload.fields && payload.fields["plugins"].JObj?
         && PLUGIN_NAME in payload.fields["plugins"].fields {
        AtOne(payload.fields["plugins"].fields[PLUGIN_NAME], "enabled");
      }
    }
  }

  lemma {:induction false} IntendedRow(row: Json, target: Tree)
    requires target.Tree?
    ensures RowOfTarget(row, target) <==>
      && row.JObj? && "source" in row.fields && row.fields["source"] == JStr("antigravity")
      && RowComponents(row) == target.components
  {
    var components := RowComponents(row);
    assert ["source"][1..] == [] && ["components"][1..] == [];
    AtOne(row, "source");
    AtOne(row, "components");
    forall c ensures c in components <==> Lists(row, c) {
      if Lists(row, c) { assert JStr(c).s in components; }
    }
    if RowOfTarget(row, target) {
      assert forall c :: c in target.components <==> Lists(row, c);
      assert components == target.components;
    } else if components == target.components {
      assert forall c :: c in target.components <==> Lists(row, c);
    }
  }

  lemma UnderWayExactly(m: Machine, j: Journal, expected: Json)
    requires ListedRow(m.files.imports).Some? && McpEntry(m.files.mcp).Some?
    ensures UnderWay(m, j, expected) <==>
      WriteAheadMatch(m, j, ListedRow(m.files.imports).value, McpEntry(m.files.mcp).value, expected)
  {
    hide ListedRow, McpEntry, PluginEnabled, NotDisabled, RowComponents, RowOfTarget;
    EnabledIsNotDisabled(m.files.config);
    if m.target.Tree? { IntendedRow(ListedRow(m.files.imports).value, m.target); }
  }

  /** The gate opens exactly where this says, for a rollback and for the undoing of a commit. */
  lemma GateExactly(m: Machine, j: Journal, expected: Json, undoCommitted: bool)
    requires ListedRow(m.files.imports).Some? && McpEntry(m.files.mcp).Some?
    ensures MayWrite(m, j, expected, undoCommitted) <==>
      Gate(m, j, ListedRow(m.files.imports).value, McpEntry(m.files.mcp).value, expected, undoCommitted)
  {
    hide ListedRow, McpEntry, UnderWay, WriteAheadMatch;
    UnderWayExactly(m, j, expected);
  }
}
