/**
 A dictionary whose first key is printed in quotes is not taken for a dictionary by the parser of
 omg_cli/catalog_yaml.py: wherever it stands, the value it belongs to does not come back.
 */
module YamlLost {
  import opened Text
  import opened Yaml
  import opened YamlScalars
  import opened YamlShape
  import opened YamlRoundTrip

  // ---------- what has been read stays read ----------

  lemma {:induction false} MapLoopKeeps(rows: seq<string>, index: nat, indent: nat, out: seq<Entry>)
    requires index <= |rows|
    ensures var r := MapLoop(rows, index, indent, out); r.Done? ==> out <= r.value
    decreases Ink(rows[index..]), |rows| - index
  {
    hide ParseNode, ListLoop, ParseBlock, ParseScalar, ParseKey, Strip, IndentOf, Ignorable, SkipIgnorable, Find, Ink;
    if index < |rows| {
      var current := IndentOf(rows[index]);
      var stripped := rows[index][current..];
      var colon := Find(stripped, ':');
      InkSuffix(rows, index, index + 1);
      if Ignorable(rows[index]) {
        MapLoopKeeps(rows, index + 1, indent, out);
      } else if current == indent && !("-" <= stripped) && colon < |stripped| {
        var key := ParseKey(Strip(stripped[..colon]));
        if key.Ok? && !HasKey(out, key.value) {
          var rest := Strip(stripped[colon + 1..]);
          var look := SkipIgnorable(rows, index + 1);
          if rest == "" && (look == |rows| || IndentOf(rows[look]) <= indent) {
            MapLoopKeeps(rows, index + 1, indent, out + [Entry(key.value, Map([]))]);
          } else if rest == "" {
            var p := ParseNode(rows, look, indent + 2);
            if p.Done? {
              InkSuffix(rows, index, p.next);
              MapLoopKeeps(rows, p.next, indent, out + [Entry(key.value, p.value)]);
            }
          } else if rest == "|" || rest == "|-" {
            var b := ParseBlock(rows, index + 1, indent + 2, rest);
            InkSuffix(rows, index, b.1);
            MapLoopKeeps(rows, b.1, indent, out + [Entry(key.value, Str(b.0))]);
          } else if ParseScalar(rest).Ok? {
            MapLoopKeeps(rows, index + 1, indent, out + [Entry(key.value, ParseScalar(rest).value)]);
          }
        }
      }
    }
  }

  lemma {:induction false} ListLoopKeeps(rows: seq<string>, index: nat, indent: nat, out: seq<Value>)
    requires index <= |rows|
    ensures var r := ListLoop(rows, index, indent, out); r.Done? ==> out <= r.value
    decreases Ink(rows[index..]), |rows| - index
  {
    hide ParseNode, MapLoop, ParseBlock, ParseScalar, Strip, IndentOf;
    hide Ignorable, SkipIgnorable, LooksLikeMap, NestedEnd, NestedRows, Ink;
    if index < |rows| {
      var current := IndentOf(rows[index]);
      var stripped := rows[index][current..];
      InkSuffix(rows, index, index + 1);
      if Ignorable(rows[index]) {
        ListLoopKeeps(rows, index + 1, indent, out);
      } else if current == indent && stripped == "-" {
        var look := SkipIgnorable(rows, index + 1);
        if look == |rows| {
          ListLoopKeeps(rows, index + 1, indent, out + [Null]);
        } else {
          var p := ParseNode(rows, look, indent + 2);
          if p.Done? {
            InkSuffix(rows, index, p.next);
            ListLoopKeeps(rows, p.next, indent, out + [p.value]);
          }
        }
      } else if current == indent && "- " <= stripped {
        var body := stripped[2..];
        if body == "|" || body == "|-" {
          var b := ParseBlock(rows, index + 1, indent + 2, body);
          InkSuffix(rows, index, b.1);
          ListLoopKeeps(rows, b.1, indent, out + [Str(b.0)]);
        } else if LooksLikeMap(body) {
          var end := NestedEnd(rows, index + 1, indent);
          InkSuffix(rows, index, end);
          var r := MapLoop(NestedRows(rows, index, indent, body, end), 0, indent + 2, []);
          if r.Done? { ListLoopKeeps(rows, end, indent, out + [Map(r.value)]); }
        } else if ParseScalar(body).Ok? {
          ListLoopKeeps(rows, index + 1, indent, out + [ParseScalar(body).value]);
        }
      }
    }
  }

  // ---------- a quoted first key ----------

  /** A field line with a quoted key looks like a scalar. */
  lemma QuotedField(e: Entry)
    requires KeyOk(e.key) && Wide(e.value) && !IsPlain(e.key)
    ensures var t := FieldText(e);
      && "\"" <= t && !LooksLikeMap(t) && !("-" <= t) && t != "{}" && t != "[]" && t != "|" && t != "|-"
    ensures ParseScalar(FieldText(e)).Ok? ==>
      !ParseScalar(FieldText(e)).value.Map? && !ParseScalar(FieldText(e)).value.List?
  {
    hide Escape, Tail, Wide, Strip, Unescape, ReplaceDoubledQuotes, ParseDigits, AllDigits, IsPlain, KeyOk;
    var t := FieldText(e);
    assert t[0] == '"';
    FieldLine(e);
    StripId(t);
  }

  lemma QuotedNode(v: Value, level: nat, rows: seq<string>, index: nat, minIndent: nat)
    requires Wide(v) && v.Map? && |v.entries| > 0 && !IsPlain(v.entries[0].key) && minIndent <= 2 * level
    requires index < |rows| && IndentOf(rows[index]) == 2 * level && rows[index][2 * level..] == FieldText(v.entries[0])
    ensures var r := ParseNode(rows, index, minIndent); r.Done? ==> r.value != v
  {
    hide MapLoop, ListLoop, ParseScalar, IndentOf, LooksLikeMap, FieldText, IsPlain, Ink, KeyOk;
    QuotedField(v.entries[0]);
  }

  /** The loop stands on a dictionary with a quoted first key: it reads a scalar. */
  lemma QuotedItem(rows: seq<string>, index: nat, indent: nat, out: seq<Value>, e: Entry)
    requires KeyOk(e.key) && Wide(e.value) && !IsPlain(e.key) && DashRow(rows, index, indent, "- " + FieldText(e))
    ensures var x := ParseScalar(FieldText(e));
      && (x.Ok? ==> !x.value.Map?)
      && ListLoop(rows, index, indent, out) == if x.Ok? then ListLoop(rows, index + 1, indent, out + [x.value])
        else Fail(x.error)
  {
    hide ParseNode, MapLoop, ParseBlock, ParseScalar, Ignorable, IndentOf, LooksLikeMap;
    hide NestedEnd, NestedRows, SkipIgnorable, Ink, FieldText, IsPlain, KeyOk, Wide;
    QuotedField(e);
    assert ("- " + FieldText(e))[2..] == FieldText(e);
  }

  // ---------- lost wherever it stands ----------

  /** A printed dictionary or list with a quoted first key somewhere is not what `ParseNode` reads. */
  lemma {:induction false} LostNode(v: Value, level: nat, rows: seq<string>, index: nat, minIndent: nat, d: nat)
    requires Wide(v) && !FirstPlain(v) && minIndent <= 2 * level
    requires Stands(rows, index, DumpNode(v, level), d, 2 * level)
    ensures index < |rows| && !Ignorable(rows[index]) && IndentOf(rows[index]) == 2 * level
    ensures var r := ParseNode(rows, index, minIndent); r.Done? ==> r.value != v
    decreases v, 0
  {
    hide MapLoop, ListLoop, ParseScalar, IndentOf, Ignorable, Ink, Stands, LooksLikeMap;
    hide FieldText, KeyOk, DumpEntries, DumpItems, IsPlain, DistinctKeys, ItemText;
    if v.Map? {
      FirstField(v.entries, level, rows, index, d, 2 * level);
      var e := v.entries[0];
      if !IsPlain(e.key) {
        QuotedNode(v, level, rows, index, minIndent);
      } else {
        FirstKeyLooksLikeMap(e);
        LostEntries(v.entries, level, rows, index, [], d);
        assert [] + v.entries == v.entries;
      }
    } else {
      ListNode(v.items, level, rows, index, d);
      LostItems(v.items, level, rows, index, [], d);
      assert [] + v.items == v.items;
    }
  }

  lemma {:induction false} LostEntries(entries: seq<Entry>, level: nat, rows: seq<string>, index: nat, out: seq<Entry>,
                                       d: nat)
    requires WideFields(entries) && exists i :: 0 <= i < |entries| && !FirstPlain(entries[i].value)
    requires forall i :: 0 <= i < |entries| ==> !HasKey(out, entries[i].key)
    requires Stands(rows, index, DumpEntries(entries, level), d, 2 * level)
    ensures var r := MapLoop(rows, index, 2 * level, out); r.Done? ==> r.value != out + entries
    decreases entries
  {
    hide MapLoop, FieldText, Spaces, Below, KeyOk, Wide, FirstPlain, At;
    hide Back, Stops, HasKey, Stands, DumpEntries, Unbroken, RStrip, IndentOf, Ignorable;
    var e := entries[0];
    var lines := [Pad(level) + FieldText(e)] + Below(e.value, level + 1);
    var rest := DumpEntries(entries[1..], level);
    EntriesFirst(entries, level);
    assert DumpEntries(entries, level) == lines + rest;
    if |entries| == 1 {
      OneEntry(entries, level, d);
      assert lines + rest == lines;
      StandsWider(rows, index, lines, d, 2 * level, 2 * level + 1);
      LostField(e, level, rows, index, out, d);
      assert (out + entries)[|out|] == e;
    } else {
      EntriesEnd(entries[1..], level, rows, index, lines, d);
      StandsSplit(rows, index, lines, rest, d, 2 * level);
      var next := index + |lines|;
      FirstField(entries[1..], level, rows, next, d, 2 * level);
      StandsWhole(rows, index, lines, 2 * level + 1) by { RowStops(rows, next, 2 * level, 2 * level + 1); }
      if FirstPlain(e.value) {
        FieldParse(e, level, rows, index, out, 0);
        var read := Entry(e.key, Back(e.value, 0));
        if Unbroken(e.value) {
          if read == e {
            FreshKeys(entries, out, e.value);
            OthersLost(entries);
            LostEntries(entries[1..], level, rows, next, out + [e], d);
            assert out + [e] + entries[1..] == out + entries;
          } else {
            MapLoopKeeps(rows, next, 2 * level, out + [read]);
            OtherEntry(out, read, entries, MapLoop(rows, next, 2 * level, out + [read]));
          }
        }
      } else {
        LostField(e, level, rows, index, out, 0);
        assert (out + entries)[|out|] == e;
      }
    }
  }

  lemma OthersLost(entries: seq<Entry>)
    requires |entries| > 0 && FirstPlain(entries[0].value)
      && exists i :: 0 <= i < |entries| && !FirstPlain(entries[i].value)
    ensures exists i :: 0 <= i < |entries[1..]| && !FirstPlain(entries[1..][i].value)
  {
    hide FirstPlain;
    var i :| 0 <= i < |entries| && !FirstPlain(entries[i].value);
    assert entries[1..][i - 1] == entries[i];
  }

  lemma OtherEntry(out: seq<Entry>, read: Entry, entries: seq<Entry>, r: Parsed<seq<Entry>>)
    requires |entries| > 0 && read != entries[0] && (r.Done? ==> out + [read] <= r.value)
    ensures r.Done? ==> r.value != out + entries
  {
    assert (out + [read])[|out|] == read && (out + entries)[|out|] == entries[0];
  }

  /** A field whose value is lost: what is read in its place is something else. */
  lemma {:induction false} LostField(e: Entry, level: nat, rows: seq<string>, index: nat, out: seq<Entry>, d: nat)
    requires KeyOk(e.key) && Wide(e.value) && !FirstPlain(e.value) && !HasKey(out, e.key)
    requires Stands(rows, index, [Pad(level) + FieldText(e)] + Below(e.value, level + 1), d, 2 * level + 1)
    ensures var r := MapLoop(rows, index, 2 * level, out); r.Done? ==> |r.value| > |out| && r.value[|out|] != e
    decreases e.value, 1
  {
    hide MapLoop, ParseNode, RStrip, IndentOf, Ignorable, FieldText, KeyOk, HasKey;
    hide Spaces, Stands, Wide, FirstPlain, Below, DumpNode, FieldStep, Tail;
    var line, below := Pad(level) + FieldText(e), Below(e.value, level + 1);
    FieldRow(e, level, RStrip(line));
    StandsFirst(rows, index, line, below, d, 2 * level + 1, 2 * level + 2);
    FieldUnfold(rows, index, level, out, e);
    LostIsNested(e.value);
    BelowIsNode(e.value, level + 1);
    LostNode(e.value, level + 1, rows, index + 1, 2 * level + 2, d);
    FieldNode(e, level, rows, index, out);
    var p := ParseNode(rows, index + 1, 2 * level + 2);
    if p.Done? {
      var read := Entry(e.key, p.value);
      MapLoopKeeps(rows, p.next, 2 * level, out + [read]);
      assert (out + [read])[|out|] == read;
    }
  }

  lemma LostIsNested(v: Value)
    requires !FirstPlain(v)
    ensures !IsScalar(v) && v != Map([]) && v != List([])
  {}

  lemma {:induction false} LostItems(items: seq<Value>, level: nat, rows: seq<string>, index: nat, out: seq<Value>,
                                     d: nat)
    requires (forall i :: 0 <= i < |items| ==> Wide(items[i])) && exists i :: 0 <= i < |items| && !FirstPlain(items[i])
    requires Stands(rows, index, DumpItems(items, level), d, 2 * level)
    ensures var r := ListLoop(rows, index, 2 * level, out); r.Done? ==> r.value != out + items
    decreases items
  {
    hide ListLoop, RStrip, IndentOf, Ignorable, Spaces, Wide, FirstPlain;
    hide At, BackItem, ItemText, DumpItem, Stops, Stands, DumpItems, UnbrokenItem;
    var lines, rest := DumpItem(items[0], level), DumpItems(items[1..], level);
    assert DumpItems(items, level) == lines + rest by { FirstLines(items, level); }
    assert (out + items)[|out|] == items[0];
    if |items| == 1 {
      OneItem(items, level, d);
      assert lines + rest == lines;
      StandsWider(rows, index, lines, d, 2 * level, 2 * level + 1);
      LostItem(items[0], level, rows, index, out, d);
    } else {
      ItemsEnd(items[1..], level, rows, index, lines, d);
      StandsSplit(rows, index, lines, rest, d, 2 * level);
      var next := index + |lines|;
      FirstItem(items[1..], level, rows, next, d, 2 * level);
      StandsWhole(rows, index, lines, 2 * level + 1) by { RowStops(rows, next, 2 * level, 2 * level + 1); }
      if FirstPlain(items[0]) {
        ItemParse(items[0], level, rows, index, out, 0);
        var read := BackItem(items[0], 0);
        if UnbrokenItem(items[0]) {
          if read == items[0] {
            OtherItemsLost(items);
            LostItems(items[1..], level, rows, next, out + [read], d);
            assert out + [read] + items[1..] == out + items;
          } else {
            ListLoopKeeps(rows, next, 2 * level, out + [read]);
            OtherItem(out, read, items[0], ListLoop(rows, next, 2 * level, out + [read]));
          }
        }
      } else {
        LostItem(items[0], level, rows, index, out, 0);
      }
    }
  }

  lemma OtherItemsLost(items: seq<Value>)
    requires |items| > 0 && FirstPlain(items[0]) && exists i :: 0 <= i < |items| && !FirstPlain(items[i])
    ensures exists i :: 0 <= i < |items[1..]| && !FirstPlain(items[1..][i])
  {
    hide FirstPlain;
    var i :| 0 <= i < |items| && !FirstPlain(items[i]);
    assert items[1..][i - 1] == items[i];
  }

  lemma OtherItem(out: seq<Value>, read: Value, v: Value, r: Parsed<seq<Value>>)
    requires read != v && (r.Done? ==> out + [read] <= r.value)
    ensures r.Done? ==> |r.value| > |out| && r.value[|out|] != v
  {
    assert (out + [read])[|out|] == read;
  }

  lemma {:induction false} LostItem(v: Value, level: nat, rows: seq<string>, index: nat, out: seq<Value>, d: nat)
    requires Wide(v) && !FirstPlain(v) && Stands(rows, index, DumpItem(v, level), d, 2 * level + 1)
    ensures var r := ListLoop(rows, index, 2 * level, out); r.Done? ==> |r.value| > |out| && r.value[|out|] != v
    decreases v, 2
  {
    hide ParseNode, ListLoop, RStrip, IndentOf, Ignorable, Stands, Spaces;
    hide DumpItem, DumpNode, ItemText, ItemBelow, DashRow, Wide, FirstPlain;
    LostIsNested(v);
    if v.List? {
      ItemShape(v, level);
      var line := Pad(level) + ItemText(v);
      ItemRow(v, level, RStrip(line));
      StandsFirst(rows, index, line, ItemBelow(v, level), d, 2 * level + 1, 2 * level + 2);
      RowIsDash(rows, index, 2 * level, ItemText(v));
      ItemOfList(v, level, d);
      LostNode(v, level + 1, rows, index + 1, 2 * level + 2, d);
      var p := ParseNode(rows, index + 1, 2 * level + 2);
      ListNodeStep(rows, index, 2 * level, out, p);
      if p.Done? {
        ListLoopKeeps(rows, p.next, 2 * level, out + [p.value]);
        OtherItem(out, p.value, v, ListLoop(rows, p.next, 2 * level, out + [p.value]));
      }
    } else {
      LostDash(v, level, rows, index, out, d);
    }
  }

  /** Whatever is read in place of an item, the loop does not take it back. */
  lemma ReadInPlace(rows: seq<string>, next: nat, indent: nat, out: seq<Value>, read: Value, v: Value)
    requires next <= |rows| && read != v
    ensures var r := ListLoop(rows, next, indent, out + [read]); r.Done? ==> |r.value| > |out| && r.value[|out|] != v
  {
    hide ListLoop;
    ListLoopKeeps(rows, next, indent, out + [read]);
    OtherItem(out, read, v, ListLoop(rows, next, indent, out + [read]));
  }

  lemma QuotedDash(v: Value, rows: seq<string>, index: nat, indent: nat, out: seq<Value>)
    requires v.Map? && |v.entries| > 0 && DashRow(rows, index, indent, "- " + FieldText(v.entries[0]))
    requires KeyOk(v.entries[0].key) && Wide(v.entries[0].value) && !IsPlain(v.entries[0].key)
    ensures var r := ListLoop(rows, index, indent, out); r.Done? ==> |r.value| > |out| && r.value[|out|] != v
  {
    hide ListLoop, ParseScalar, FieldText, IsPlain, KeyOk, Wide, Ignorable, IndentOf;
    QuotedItem(rows, index, indent, out, v.entries[0]);
    var x := ParseScalar(FieldText(v.entries[0]));
    if x.Ok? { ReadInPlace(rows, index + 1, indent, out, x.value, v); }
  }

  lemma {:induction false} LostDash(v: Value, level: nat, rows: seq<string>, index: nat, out: seq<Value>, d: nat)
    requires Wide(v) && !FirstPlain(v) && v.Map? && |v.entries| > 0
    requires Stands(rows, index, DumpItem(v, level), d, 2 * level + 1)
    ensures var r := ListLoop(rows, index, 2 * level, out); r.Done? ==> |r.value| > |out| && r.value[|out|] != v
    decreases v, 1
  {
    hide ListLoop, Solid, DashRow, FirstPlain, Wide, IsPlain, RStrip, Spaces;
    hide DumpItem, DumpEntries, KeyOk, LooksLikeMap, FieldText, Stands, Gap, Deep, ItemAt;
    var e, inner := v.entries[0], DumpEntries(v.entries, level + 1);
    assert WideFields(v.entries) by { FieldsOfWide(v); }
    ItemRows(v, level, rows, index, d);
    if !IsPlain(e.key) {
      QuotedDash(v, rows, index, 2 * level, out);
    } else {
      FieldLine(e);
      GapInside(inner, level + 1, FieldText(e));
      PlainDash(v, level, rows, index, out, d);
    }
  }

  lemma {:induction false} PlainDash(v: Value, level: nat, rows: seq<string>, index: nat, out: seq<Value>, d: nat)
    requires Wide(v) && !FirstPlain(v) && v.Map? && |v.entries| > 0 && IsPlain(v.entries[0].key)
    requires WideFields(v.entries)
    requires var inner := DumpEntries(v.entries, level + 1);
      && ItemAt(rows, index, inner, d, 2 * level) && Deep(inner, level + 1) && Gap(inner) < |inner|
      && RStrip(inner[0]) == Pad(level + 1) + FieldText(v.entries[0])
    requires DashRow(rows, index, 2 * level, "- " + FieldText(v.entries[0]))
    ensures var r := ListLoop(rows, index, 2 * level, out); r.Done? ==> |r.value| > |out| && r.value[|out|] != v
    decreases v, 0
  {
    hide MapLoop, ListLoop, NestedRows, DashRow, FirstPlain, Wide, IsPlain, RStrip, Spaces;
    hide DumpEntries, KeyOk, LooksLikeMap, FieldText, Broken, Stands, Gap, Deep, ItemAt, WideFields;
    var e, inner := v.entries[0], DumpEntries(v.entries, level + 1);
    assert KeyOk(e.key) && Wide(e.value) by { FirstWide(v.entries); }
    FirstKeyLooksLikeMap(e);
    if Broken(inner) {
      BrokenFails(rows, index, inner, d, level, out, FieldText(e));
    } else {
      ItemBounds(rows, index, inner, d, 2 * level);
      var cut := Max(d, Gap(inner));
      var nested := NestedRows(rows, index, 2 * level, FieldText(e), index + |inner| - cut);
      UnbrokenGoesOn(rows, index, inner, d, level, out, FieldText(e));
      NestedStands(rows, index, inner, d, level, FieldText(e));
      SomeValueLost(v);
      LostEntries(v.entries, level + 1, nested, 0, [], cut);
      assert [] + v.entries == v.entries;
      var r := MapLoop(nested, 0, 2 * level + 2, []);
      if r.Done? { ReadInPlace(rows, index + |inner| - d, 2 * level, out, Map(r.value), v); }
    }
  }

  lemma FirstWide(entries: seq<Entry>)
    requires WideFields(entries) && |entries| > 0
    ensures KeyOk(entries[0].key) && Wide(entries[0].value)
  {
    hide KeyOk, Wide;
  }

  lemma FieldsOfWide(v: Value)
    requires Wide(v) && v.Map?
    ensures WideFields(v.entries)
  {
    hide KeyOk;
  }

  lemma SomeValueLost(v: Value)
    requires v.Map? && |v.entries| > 0 && !FirstPlain(v) && IsPlain(v.entries[0].key)
    ensures exists i :: 0 <= i < |v.entries| && !FirstPlain(v.entries[i].value)
  {
    hide IsPlain;
  }
}
