/** The rules file of omg_cli/guidance.py, rewritten by install and uninstall. */
module GuidanceCode {
  import opened Options
  import opened Text
  import opened Guidance

  /** `_join_regions` */
  method JoinParts(parts: seq<string>) returns (joined: string)
    ensures joined == JoinRegions(parts)
  {
    var cleaned: seq<string> := [];
    for i := 0 to |parts|
      invariant cleaned == Cleaned(parts[..i])
    {
      assert parts[..i + 1][..i] == parts[..i];
      var s := StripNl(parts[i]);
      if s != "" { cleaned := cleaned + [s]; }
    }
    assert parts[..|parts|] == parts;
    if |cleaned| == 0 { return "\n"; }
    return Join(cleaned, '\n') + "\n";
  }

  /**
   `reconcile_rules_text`; None where it raises.  The new text holds the block, and nothing is left to
   do for the same block.
   */
  method ReconcileRulesText(existing: string, newBlock: string) returns (result: Option<Reconciled>)
    ensures result == Reconcile(existing, newBlock)
    ensures result.None? <==> Strip(existing) != "" && Extract(existing).Corrupt?
    ensures IsBlock(newBlock) && result.Some? ==>
      var text := result.value.text;
      && Extract(text).Block? && text[Extract(text).start..Extract(text).end] == RStripNl(newBlock)
      && Reconcile(text, newBlock) == Some(Reconciled(text, Unchanged))
  {
    hide Extract, Strip, OneNewline, IsBlock, RStripNl;
    if IsBlock(newBlock) && Reconcile(existing, newBlock).Some? {
      InstalledSpan(existing, newBlock);
      InstallTwice(existing, newBlock);
    }
    var block := OneNewline(newBlock);
    if Strip(existing) == "" { return Some(Reconciled(block, Created)); }
    var span := Extract(existing);
    if span.Corrupt? { return None; }
    var text;
    if span.NoBlock? {
      text := JoinParts([existing, block]);
    } else {
      text := JoinParts([existing[..span.start], block, existing[span.end..]]);
    }
    if text == existing { return Some(Reconciled(existing, Unchanged)); }
    return Some(Reconciled(text, Updated));
  }

  /** rules/omg.md and the backup beside it. */
  class RulesFile {
    var content: Option<string>
    var backup: Option<string>

    constructor (found: Option<string>)
      ensures content == found && backup == None
    {
      content, backup := found, None;
    }

    function Existing(): string
      reads this
    {
      if content.None? then "" else content.value
    }

    /** `install_global_rules`; None where it raises, with nothing written. */
    method InstallGlobalRules(newBlock: string) returns (action: Option<Action>)
      modifies this
      ensures var r := Reconcile(old(Existing()), newBlock);
        && (r.None? ==> action == None && content == old(content) && backup == old(backup))
        && (r.Some? ==>
              && action == Some(r.value.action)
              && content == (if r.value.action == Unchanged then old(content) else Some(r.value.text))
              && backup == (if r.value.action == Unchanged || old(content).None? then old(backup) else old(content)))
    {
      hide Reconcile;
      var r := ReconcileRulesText(Existing(), newBlock);
      if r.None? { return None; }
      if r.value.action != Unchanged {
        if content.Some? { backup := content; }
        content := Some(r.value.text);
      }
      return Some(r.value.action);
    }

    /** `uninstall_global_rules`; None where it raises. */
    method UninstallGlobalRules() returns (removal: Option<Removal>)
      modifies `content
      ensures old(content).None? ==> removal == Some(LeftAlone) && content == None
      ensures old(content).Some? ==>
        && removal == Uninstall(old(content).value)
        && content == match removal
             case Some(Removed) => None
             case Some(KeptUser(text)) => Some(text)
             case _ => old(content)
    {
      hide Extract, Strip;
      if content.None? { return Some(LeftAlone); }
      var text := content.value;
      var span := Extract(text);
      if span.Corrupt? { return None; }
      if span.NoBlock? { return Some(LeftAlone); }
      var remainder := Strip(text[..span.start] + text[span.end..]);
      if remainder == "" {
        content := None;
        return Some(Removed);
      }
      content := Some(remainder + "\n");
      return Some(KeptUser(remainder + "\n"));
    }
  }

  /** Installing into a file without markers and uninstalling again, on the file itself. */
  method InstallThenUninstall(file: RulesFile, newBlock: string)
    requires IsBlock(newBlock) && file.content.Some? && MarkerFree(file.content.value)
    requires Strip(file.content.value) != ""
    modifies file
    ensures file.content == Some(Strip(old(file.content.value)) + "\n") && file.backup == old(file.content)
  {
    hide Reconcile, Uninstall, IsBlock, MarkerFree, Strip;
    ghost var existing := file.content.value;
    UninstallUndoesInstall(existing, newBlock);
    MarkerFreeIsChanged(existing, newBlock);
    var _ := file.InstallGlobalRules(newBlock);
    var _ := file.UninstallGlobalRules();
  }

  /** The first install into such a file always writes. */
  lemma MarkerFreeIsChanged(existing: string, newBlock: string)
    requires IsBlock(newBlock) && MarkerFree(existing) && Reconcile(existing, newBlock).Some?
    ensures Reconcile(existing, newBlock).value.action != Unchanged
  {
    hide JoinRegions, Extract, Strip, IsBlock, MarkerFree, OneNewline, Regions, Spliced;
    var r := Reconcile(existing, newBlock).value;
    if r.text == existing {
      ReconcileIsSpliced(existing, newBlock);
      var (before, after) := Regions(existing);
      SplicedSpan(before, newBlock, after);
      NoBlockIsMarkerFree(existing);
    }
  }
}
