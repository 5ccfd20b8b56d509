/** What the registries are read as, by the keys and names that stand in the files. */
module AgyReading {
  import opened Options
  import opened AgyRegistry
  import opened AgyMachine
  import opened AgyGate

  /** Row k is the first that carries the plugin's name. */
  predicate FirstNamed(items: seq<Json>, k: nat) {
    && k < |items| && At(items[k], ["name"]) == Some(JStr("oh-my-grok"))
    && forall i :: 0 <= i < k ==> At(items[i], ["name"]) != Some(JStr("oh-my-grok"))
  }

  predicate NoneNamed(items: seq<Json>) {
    forall i :: 0 <= i < |items| ==> At(items[i], ["name"]) != Some(JStr("oh-my-grok"))
  }

  lemma {:induction false} OwnedIsFirst(items: seq<Json>) returns (k: nat)
    ensures Owned(items) == [] <==> NoneNamed(items)
    ensures Owned(items) != [] ==> FirstNamed(items, k) && Owned(items)[0] == items[k]
  {
    hide At;
    k := 0;
    if |items| > 0 {
      AtOne(items[0], "name");
      if !IsOwned(items[0]) {
        var rest := items[1..];
        k := OwnedIsFirst(rest);
        k := k + 1;
        assert forall i :: 0 < i < |items| ==> items[i] == rest[i - 1];
        assert NoneNamed(items) <==> NoneNamed(rest) by {
          if NoneNamed(rest) {
            forall i | 0 <= i < |items| ensures At(items[i], ["name"]) != Some(JStr("oh-my-grok")) {
              if i > 0 { assert items[i] == rest[i - 1]; }
            }
          }
          if NoneNamed(items) {
            forall i | 0 <= i < |rest| ensures At(rest[i], ["name"]) != Some(JStr("oh-my-grok")) {
              assert rest[i] == items[i + 1];
            }
          }
        }
      } else {
        assert !NoneNamed(items);
      }
    }
  }

  /** The text of a registry: none for an absent or an empty file. */
  function TextOf(f: File): Option<Bytes> { if f == None || f.value == NoBytes then None else f }

  /**
   The listed row: the first of the import rows with the plugin's name, or none; a missing or null list reads
   as empty, and any other list, or a text that is no object, as an error.
   */
  lemma ListedExactly(f: File)
    ensures TextOf(f) == None ==> ListedRow(f) == Some(JNull)
    ensures TextOf(f).Some? && f.value.json == None ==> ListedRow(f) == None
    ensures TextOf(f).Some? && f.value.json.Some? ==>
      var j := f.value.json.value;
      var rows := At(j, ["imports"]);
      if !j.JObj? then ListedRow(f) == None
      else if rows == None || rows == Some(JNull) then ListedRow(f) == Some(JNull)
      else if !rows.value.JArr? then ListedRow(f) == None
      else
        && (ListedRow(f) == Some(JNull) <==> NoneNamed(rows.value.items))
        && forall k: nat :: FirstNamed(rows.value.items, k) ==> ListedRow(f) == Some(rows.value.items[k])
  {
    hide Owned, At, IsOwned;
    if TextOf(f).Some? && f.value.json.Some? && f.value.json.value.JObj? {
      var j := f.value.json.value;
      AtOne(j, "imports");
      if "imports" in j.fields && j.fields["imports"].JArr? {
        var items := j.fields["imports"].items;
        var k := OwnedIsFirst(items);
        OneFirst(items, k);
        NamedIsObject(items, k);
      }
    }
    NoRows();
  }

  lemma NoRows()
    ensures Owned([]) == []
  {}

  lemma OneFirst(items: seq<Json>, k: nat)
    ensures FirstNamed(items, k) ==> forall i: nat :: FirstNamed(items, i) ==> i == k
    ensures NoneNamed(items) ==> forall i: nat :: !FirstNamed(items, i)
  {
    hide At;
  }

  lemma NamedIsObject(items: seq<Json>, k: nat)
    ensures FirstNamed(items, k) ==> items[k] != JNull
  {
    if FirstNamed(items, k) { AtOne(items[k], "name"); }
  }

  lemma AtTwo(j: Json, a: string, b: string)
    ensures At(j, [a, b]) == if At(j, [a]).Some? then At(At(j, [a]).value, [b]) else None
  {
    hide At;
    AtFirst(j, [a, b]);
    AtOne(j, a);
    assert [a, b][1..] == [b];
  }

  /** The server's row: an error unless the text has an object of servers and the row, if any, is an object. */
  lemma McpExactly(f: File)
    ensures f == None ==> McpEntry(f) == Some(JNull)
    ensures f.Some? && (f.value == NoBytes || f.value.json == None) ==> McpEntry(f) == None
    ensures f.Some? && f.value != NoBytes && f.value.json.Some? ==>
      var servers, row := At(f.value.json.value, ["mcpServers"]), At(f.value.json.value, ["mcpServers", "omg-tools"]);
      McpEntry(f) == if servers == None || !servers.value.JObj? then None
                     else if row == None then Some(JNull)
                     else if row.value.JObj? then row else None
  {
    hide At;
    if f.Some? && f.value != NoBytes && f.value.json.Some? {
      var j := f.value.json.value;
      AtTwo(j, "mcpServers", "omg-tools");
      AtOne(j, "mcpServers");
      if At(j, ["mcpServers"]).Some? { AtOne(At(j, ["mcpServers"]).value, "omg-tools"); }
    }
  }

  /** The row that belongs to the plugin in the config, or in the servers: none where its section is missing. */
  lemma OwnedExactly(f: File, name: Registry)
    requires name != ImportManifest
    ensures TextOf(f) == None ==> OwnedRow(f, name) == Some(JNull)
    ensures TextOf(f).Some? && f.value.json == None ==> OwnedRow(f, name) == None
    ensures TextOf(f).Some? && f.value.json.Some? ==>
      var j := f.value.json.value;
      var keys := if name == ConfigJson then ["plugins", "oh-my-grok"] else ["mcpServers", "omg-tools"];
      var section, row := At(j, keys[..1]), At(j, keys);
      OwnedRow(f, name) == if !j.JObj? || (section.Some? && !section.value.JObj?) then None
                           else if row == None then Some(JNull) else row
  {
    hide At;
    if TextOf(f).Some? && f.value.json.Some? {
      var j := f.value.json.value;
      assert ["plugins", "oh-my-grok"][..1] == ["plugins"] && ["mcpServers", "omg-tools"][..1] == ["mcpServers"];
      AtTwo(j, Section(name), OwnedKey(name));
      AtOne(j, Section(name));
      if At(j, [Section(name)]).Some? { AtOne(At(j, [Section(name)]).value, OwnedKey(name)); }
    }
  }

  /** Two rows with the plugin's name among the imports are an error; one is its row. */
  lemma OwnedImportExactly(f: File)
    requires TextOf(f).Some? && f.value.json.Some? && At(f.value.json.value, ["imports"]).Some?
    requires At(f.value.json.value, ["imports"]).value.JArr?
    ensures var items := At(f.value.json.value, ["imports"]).value.items;
      && (NoneNamed(items) ==> OwnedRow(f, ImportManifest) == Some(JNull))
      && (forall k: nat :: FirstNamed(items, k) ==>
            OwnedRow(f, ImportManifest) == if NoneNamed(items[k + 1..]) then Some(items[k]) else None)
  {
    hide At, Owned, IsOwned;
    var j := f.value.json.value;
    AtOne(j, "imports");
    var items := j.fields["imports"].items;
    var k := OwnedIsFirst(items);
    OneFirst(items, k);
    if Owned(items) != [] {
      OwnedAfter(items, k);
      var _ := OwnedIsFirst(items[k + 1..]);
    }
  }

  lemma {:induction false} OwnedAfter(items: seq<Json>, k: nat)
    requires FirstNamed(items, k)
    ensures Owned(items) == [items[k]] + Owned(items[k + 1..])
    decreases k
  {
    hide At;
    AtOne(items[0], "name");
    if k > 0 {
      var rest := items[1..];
      assert rest[k - 1] == items[k] && rest[k..] == items[k + 1..];
      assert forall i :: 0 <= i < k - 1 ==> rest[i] == items[i + 1];
      OwnedAfter(rest, k - 1);
    }
  }

  /** An empty text counts as an empty object where it is found, and as an error where it was recorded. */
  lemma EmptyTexts(f: File, name: Registry)
    ensures RestoreRegistry(f, Some(NoBytes), name) == None
    ensures RestoreRegistry(Some(NoBytes), f, name) == RestoreRegistry(Some(Dumps(JObj(map[]))), f, name)
  {}

  /**
   A receipt is put back over what is found unless that is a text no receipt can be read from and not the
   recorded one.
   */
  lemma ReceiptExactly(current: ReceiptFile, prior: ReceiptFile)
    ensures RestoreReceipt(current, prior) ==
      if current.None? || current.value.Readable? || current == prior
         || (current == Some(EmptyReceipt) && prior == None)
      then Some(prior) else None
  {}
}
