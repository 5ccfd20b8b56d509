/**
 Blank lines in dictionaries inside lists: the parser of omg_cli/catalog_yaml.py ends the item at the first
 one, and fails exactly where a line that is neither blank nor a comment is left behind it.
 */
module YamlLimits {
  import opened Text
  import opened Yaml
  import opened YamlScalars
  import opened YamlShape
  import opened YamlRoundTrip
  import opened YamlDocument

  // ---------- any rows ----------

  /**
   An empty row ends the nested rows; a deeper row behind it, blank rows and comments aside, is one too deep for
   the list.
   */
  lemma EmptyRowBreaksItem(rows: seq<string>, index: nat, indent: nat, out: seq<Value>, text: string, k: nat, q: nat)
    requires DashRow(rows, index, indent, text) && "- " <= text && LooksLikeMap(text[2..])
    requires index < k < q < |rows| && rows[k] == ""
    requires forall i :: index < i < k ==> IndentOf(rows[i]) > indent
    requires forall i :: k <= i < q ==> Ignorable(rows[i])
    requires IndentOf(rows[q]) > indent && !Ignorable(rows[q])
    ensures ListLoop(rows, index, indent, out).Fail?
  {
    hide MapLoop, ListLoop, IndentOf, Ignorable, LooksLikeMap, NestedEnd, NestedRows, DashRow;
    EmptyIndent();
    NestedEndIs(rows, index + 1, k, indent);
    assert text == "- " + text[2..];
    DashStep(rows, index, indent, out, text[2..], k);
    forall more: seq<Value> ensures ListLoop(rows, k, indent, more).Fail? {
      TooDeep(rows, k, q, indent, more);
    }
  }

  // ---------- printed rows ----------

  lemma BrokenConcat(a: seq<string>, b: seq<string>)
    ensures Broken(a) ==> Broken(a + b)
    ensures Broken(b) ==> Broken(a + b)
  {
    hide Blank, Ignorable;
    var all := a + b;
    if Broken(a) {
      var p, q :| 0 <= p < q < |a| && Blank(a[p]) && !Ignorable(a[q]);
      assert Blank(all[p]) && !Ignorable(all[q]);
    }
    if Broken(b) {
      var p, q :| 0 <= p < q < |b| && Blank(b[p]) && !Ignorable(b[q]);
      assert all[|a| + p] == b[p] && all[|a| + q] == b[q];
      assert Blank(all[|a| + p]) && !Ignorable(all[|a| + q]);
    }
  }

  /** What is broken inside a value is broken in its lines. */
  lemma {:induction false} BrokenBelow(v: Value, level: nat)
    requires InClass(v) && !Unbroken(v)
    ensures Broken(Below(v, level))
    decreases v, 0
  {
    hide Broken, DumpEntries, DumpItems, KeyOk, IsPlain, DistinctKeys, UnbrokenItem;
    match v
    case Map(entries) => BrokenEntries(entries, level);
    case List(items) => BrokenItems(items, level);
    case _ =>
  }

  lemma {:induction false} BrokenEntries(entries: seq<Entry>, level: nat)
    requires FieldsOk(entries) && !Unbroken(Map(entries))
    ensures Broken(DumpEntries(entries, level))
    decreases entries
  {
    hide Broken, DumpEntries, Below, FieldText, Wide, FirstPlain, KeyOk, Unbroken, Spaces;
    UnbrokenFirst(entries);
    EntriesFirst(entries, level);
    var line, below, rest := [Pad(level) + FieldText(entries[0])], Below(entries[0].value, level + 1),
        DumpEntries(entries[1..], level);
    assert DumpEntries(entries, level) == line + below + rest;
    if !Unbroken(entries[0].value) {
      BrokenBelow(entries[0].value, level + 1);
      BrokenConcat(line, below);
    } else {
      BrokenEntries(entries[1..], level);
    }
    BrokenConcat(line + below, rest);
  }

  lemma {:induction false} BrokenItems(items: seq<Value>, level: nat)
    requires (forall i :: 0 <= i < |items| ==> InClass(items[i])) && !Unbroken(List(items))
    ensures Broken(DumpItems(items, level))
    decreases items
  {
    hide Broken, DumpItems, DumpItem, Wide, FirstPlain, Unbroken, UnbrokenItem;
    UnbrokenFirstItem(items);
    FirstLines(items, level);
    if !UnbrokenItem(items[0]) { BrokenItemLines(items[0], level); } else { BrokenItems(items[1..], level); }
    BrokenConcat(DumpItem(items[0], level), DumpItems(items[1..], level));
  }

  lemma {:induction false} BrokenItemLines(v: Value, level: nat)
    requires InClass(v) && !UnbrokenItem(v)
    ensures Broken(DumpItem(v, level))
    decreases v, 1
  {
    hide Broken, DumpItem, DumpEntries, DumpItems, ItemText, Below, Wide, FirstPlain, Unbroken, OwnLines, Spaces;
    ItemShape(v, level);
    var line := [Pad(level) + ItemText(v)];
    if v.Map? {
      assert v == Map(v.entries);
      assert FieldsOk(v.entries) by { MapFields(v); }
      var inner := DumpEntries(v.entries, level + 1);
      OwnLinesAt(v.entries, level + 1);
      if !Unbroken(v) { BrokenEntries(v.entries, level + 1); }
      assert |v.entries| > 0 by { NoFields(level + 1); }
      BrokenBehindFirst(v.entries, level + 1);
    } else if v.List? {
      EmptyListUnbroken(v);
      BrokenBelow(v, level + 1);
      ListBelow(v, level + 1);
    } else {
      ScalarUnbroken(v);
    }
    BrokenConcat(line, ItemBelow(v, level));
  }

  lemma NoFields(level: nat)
    ensures !Broken(DumpEntries([], level))
  {}

  lemma EmptyListUnbroken(v: Value)
    requires v.List?
    ensures |v.items| == 0 ==> Unbroken(v)
  {}

  lemma ListBelow(v: Value, level: nat)
    requires v.List? && |v.items| > 0
    ensures Below(v, level) == DumpNode(v, level)
  {
    hide DumpItems;
  }

  /** The first line of a dictionary is not blank, so its other lines are broken if it is. */
  lemma BrokenBehindFirst(entries: seq<Entry>, level: nat)
    requires FieldsOk(entries) && |entries| > 0 && Broken(DumpEntries(entries, level))
    ensures Broken(DumpEntries(entries, level)[1..])
  {
    hide Blank, Ignorable, DumpEntries, FieldText, KeyOk, Wide, FirstPlain, Solid, Spaces;
    var lines := DumpEntries(entries, level);
    EntriesFirst(entries, level);
    FieldLine(entries[0]);
    SolidNotBlank(level, FieldText(entries[0]));
    var p, q :| 0 <= p < q < |lines| && Blank(lines[p]) && !Ignorable(lines[q]);
    assert lines[1..][p - 1] == lines[p] && lines[1..][q - 1] == lines[q];
  }

  lemma SolidNotBlank(level: nat, s: string)
    requires Solid(s)
    ensures !Blank(Pad(level) + s)
  {
    BlankPadded(2 * level, s);
  }

  /** Of nested dictionaries inside lists the outermost decides: its own lines show whether it parses. */
  lemma OutermostDecides(v: Value)
    requires InClass(v) && v.Map?
    ensures UnbrokenItem(v) <==> !Broken(OwnLines(v.entries))
  {
    hide Broken, DumpEntries, Wide, FirstPlain, Unbroken;
    assert v == Map(v.entries);
    assert FieldsOk(v.entries) by { MapFields(v); }
    if !Unbroken(v) { BrokenEntries(v.entries, 0); }
  }

  /** Some row between is empty, and a later one is neither blank nor a comment. */
  predicate RowsBroken(rows: seq<string>, from: nat, end: nat)
    requires end <= |rows|
  {
    exists k, q :: from <= k < q < end && rows[k] == "" && !Ignorable(rows[q])
  }

  /**
   A printed dictionary of any number of fields inside a list: the loop fails on it exactly where an empty
   row is followed by a row of the dictionary that is neither blank nor a comment.  Elsewhere the loop
   goes on behind it with what stands before its first empty row.
   */
  lemma ItemFailsExactly(v: Value, level: nat, rows: seq<string>, index: nat, out: seq<Value>)
    requires InClass(v) && v.Map? && |v.entries| > 0
    requires At(rows, index, DumpItem(v, level)) && Stops(rows, index + |DumpItem(v, level)|, 2 * level + 1)
    ensures var end := index + |DumpItem(v, level)|;
      && end <= |rows|
      && if RowsBroken(rows, index + 1, end) then ListLoop(rows, index, 2 * level, out).Fail?
         else ListLoop(rows, index, 2 * level, out) == ListLoop(rows, end, 2 * level, out + [BackItem(v, 0)])
  {
    hide At, Stops, DumpItem, Wide, FirstPlain, ListLoop, BackItem, UnbrokenItem, Broken, OwnLines, Stands, RowsBroken;
    StandsWhole(rows, index, DumpItem(v, level), 2 * level + 1);
    DashParse(v, level, rows, index, out, 0);
    OutermostDecides(v);
    ItemRowsBroken(v, level, rows, index);
  }

  lemma ItemRowsBroken(v: Value, level: nat, rows: seq<string>, index: nat)
    requires InClass(v) && v.Map? && |v.entries| > 0 && Stands(rows, index, DumpItem(v, level), 0, 2 * level + 1)
    ensures index + |DumpItem(v, level)| <= |rows|
    ensures RowsBroken(rows, index + 1, index + |DumpItem(v, level)|) <==> Broken(OwnLines(v.entries))
  {
    hide DumpItem, DumpEntries, Wide, FirstPlain, KeyOk, FieldText, Solid, Spaces;
    hide RStrip, Broken, OwnLines, Stands, ItemAt, Deep, RowsBroken, DashRow, Blank;
    var inner := DumpEntries(v.entries, level + 1);
    ItemRows(v, level, rows, index, 0);
    ItemBounds(rows, index, inner, 0, 2 * level);
    OwnLinesAt(v.entries, level + 1);
    MapInClass(v);
    FieldLine(v.entries[0]);
    SolidNotBlank(level + 1, FieldText(v.entries[0]));
    RowsAreLines(rows, index, inner, level);
  }

  lemma RowsAreLines(rows: seq<string>, index: nat, inner: seq<string>, level: nat)
    requires ItemAt(rows, index, inner, 0, 2 * level) && Deep(inner, level + 1)
    requires |inner| > 0 && index + |inner| <= |rows| && !Blank(inner[0])
    ensures RowsBroken(rows, index + 1, index + |inner|) <==> Broken(inner)
  {
    hide Blank, Ignorable, ItemAt, Deep;
    forall i | index < i < index + |inner|
      ensures i < |rows| && (rows[i] == "" <==> Blank(inner[i - index]))
      ensures (Ignorable(rows[i]) <==> Ignorable(inner[i - index]))
    {
      ItemDeep(rows, index, inner, 0, level, i);
      EmptyIndent();
    }
    if RowsBroken(rows, index + 1, index + |inner|) {
      var k, q :| index + 1 <= k < q < index + |inner| && rows[k] == "" && !Ignorable(rows[q]);
      assert Blank(inner[k - index]) && !Ignorable(inner[q - index]);
    }
    if Broken(inner) {
      var p, q :| 0 <= p < q < |inner| && Blank(inner[p]) && !Ignorable(inner[q]);
      var k, l := index + p, index + q;
      assert rows[k] == "" && !Ignorable(rows[l]);
    }
  }

  // ---------- documents ----------

  /** A blank line below a field of a dictionary in a list, another field behind it: the document does not parse. */
  lemma BlankBeforeFieldFails(entries: seq<Entry>, i: nat, j: nat)
    requires InClass(Map(entries)) && i + 1 < |entries|
    requires j < |Below(entries[i].value, 1)| && Blank(Below(entries[i].value, 1)[j])
    ensures ParseYaml(DumpYaml(List([Map(entries)]))).Err?
  {
    hide ParseYaml, DumpYaml, Wide, FirstPlain, Broken, Unbroken, OwnLines, Below, Blank;
    assert FieldsOk(entries) by { MapFields(Map(entries)); }
    FieldBreaks(entries, i, j);
    OneInList(Map(entries));
    OutermostDecides(Map(entries));
    ParseOfText(List([Map(entries)]));
  }

  lemma OneInList(v: Value)
    ensures InClass(v) <==> InClass(List([v]))
    ensures Unbroken(List([v])) <==> UnbrokenItem(v)
  {
    hide UnbrokenItem;
    assert [v][0] == v;
    UnbrokenFirstItem([v]);
    assert [v][1..] == [];
  }

  lemma {:induction false} FieldBreaks(entries: seq<Entry>, i: nat, j: nat)
    requires FieldsOk(entries) && i + 1 < |entries|
    requires j < |Below(entries[i].value, 1)| && Blank(Below(entries[i].value, 1)[j])
    ensures Broken(OwnLines(entries))
    decreases entries
  {
    hide Broken, DumpEntries, Below, FieldText, Wide, FirstPlain, KeyOk, Spaces, Blank, Ignorable;
    EntriesFirst(entries, 0);
    var line, below, rest := [Pad(0) + FieldText(entries[0])], Below(entries[0].value, 1), DumpEntries(entries[1..], 0);
    assert DumpEntries(entries, 0) == line + below + rest;
    if i == 0 {
      EntriesFirst(entries[1..], 0);
      FieldRow(entries[1], 0, RStrip(Pad(0) + FieldText(entries[1])));
      BlankThenText(line + below, rest, 1 + j);
    } else {
      FieldBreaks(entries[1..], i - 1, j);
      BrokenConcat(line + below, rest);
    }
  }

  lemma BlankThenText(a: seq<string>, b: seq<string>, p: nat)
    requires p < |a| && Blank(a[p]) && |b| > 0 && !Ignorable(b[0])
    ensures Broken(a + b)
  {
    hide Blank, Ignorable;
    var all := a + b;
    assert Blank(all[p]) && !Ignorable(all[|a|]);
  }

  /**
   A string with a blank line, then text, as the last field of a dictionary in a list: the document does not
   parse.
   */
  lemma BlankLineInListFails(key: string, s: string, j: nat, k: nat)
    requires IsPlain(key) && BlockForm(s) && InClass(Map([Entry(key, Str(s))]))
    requires var parts := Split(BlockBody(s), '\n'); j < k < |parts| && Blank(parts[j]) && !Ignorable(parts[k])
    ensures ParseYaml(DumpYaml(List([Map([Entry(key, Str(s))])]))).Err?
  {
    hide ParseYaml, DumpYaml, Wide, FirstPlain, Broken, Unbroken, OwnLines;
    hide Below, Blank, IsPlain, Split, BlockBody, BlockForm, Ignorable;
    var entries := [Entry(key, Str(s))];
    var parts := Split(BlockBody(s), '\n');
    EntriesFirst(entries, 0);
    NoEntries(0);
    BlockBelow(s, 1);
    assert entries[1..] == [];
    var line := [Pad(0) + FieldText(entries[0])];
    assert OwnLines(entries) == line + Indented(parts, 1) by { OwnLinesAre(entries); }
    IndentedBroken(parts, j, k);
    BrokenConcat(line, Indented(parts, 1));
    OneInList(Map(entries));
    OutermostDecides(Map(entries));
    ParseOfText(List([Map(entries)]));
  }

  lemma OwnLinesAre(entries: seq<Entry>)
    ensures OwnLines(entries) == DumpEntries(entries, 0)
  {}

  lemma IndentedBroken(parts: seq<string>, j: nat, k: nat)
    requires j < k < |parts| && Blank(parts[j]) && !Ignorable(parts[k])
    ensures Broken(Indented(parts, 1))
  {
    hide Blank, Ignorable, Spaces;
    var lines := Indented(parts, 1);
    BlankPadded(2, parts[j]);
    IgnorablePadded(2, parts[k]);
    assert Blank(lines[j]) && !Ignorable(lines[k]);
  }
}
