/**
 The printer and the parser of omg_cli/catalog_yaml.py in their own form: a printer that appends to
 a shared list of lines, parsers that move an index over the rows.  Each is proved to compute the
 function of module Yaml that the round trip is about.
 */
module YamlCode {
  import opened Text
  import opened Yaml

  class Printer {
    var lines: seq<string>

    constructor ()
      ensures lines == []
    {
      lines := [];
    }

    method Append(line: string)
      modifies this
      ensures lines == old(lines) + [line]
    {
      lines := lines + [line];
    }

    /** The body of a block scalar, one line per part. */
    method AppendBlock(s: string, level: nat)
      modifies this
      ensures lines == old(lines) + Indented(Split(BlockBody(s), '\n'), level)
    {
      hide Split, BlockBody, Spaces;
      var parts := Split(BlockBody(s), '\n');
      var i := 0;
      while i < |parts|
        invariant 0 <= i <= |parts|
        invariant lines == old(lines) + Indented(parts, level)[..i]
      {
        assert Indented(parts, level)[..i + 1] == Indented(parts, level)[..i] + [Pad(level) + parts[i]];
        Append(Pad(level) + parts[i]);
        i := i + 1;
      }
    }

    /** `_dump`: refuses exactly what is not dumpable, and otherwise appends the lines of v. */
    method Dump(v: Value, level: nat) returns (ok: bool)
      modifies this
      ensures ok <==> Dumpable(v)
      ensures ok ==> lines == old(lines) + DumpNode(v, level)
      decreases v, 2
    {
      hide DumpScalar, DumpEntries, DumpItems, Spaces;
      match v {
        case Map(entries) =>
          if |entries| == 0 {
            Append(Pad(level) + "{}");
            return true;
          }
          ok := DumpFields(v, level);
        case List(items) =>
          if |items| == 0 {
            Append(Pad(level) + "[]");
            return true;
          }
          ok := DumpElements(v, level);
        case _ =>
          Append(Pad(level) + DumpScalar(v));
          ok := true;
      }
    }

    /** The loop of `_dump` over a dictionary. */
    method DumpFields(v: Value, level: nat) returns (ok: bool)
      requires v.Map?
      modifies this
      ensures ok <==> forall j :: 0 <= j < |v.entries| ==> v.entries[j].key != "" && Dumpable(v.entries[j].value)
      ensures ok ==> lines == old(lines) + DumpEntries(v.entries, level)
      decreases v, 1
    {
      hide Dumpable, Below, FieldText, Spaces, Tail, DumpText;
      var entries := v.entries;
      var i := 0;
      ghost var start := lines;
      while i < |entries|
        invariant 0 <= i <= |entries|
        invariant lines + DumpEntries(entries[i..], level) == start + DumpEntries(entries, level)
        invariant forall j :: 0 <= j < i ==> entries[j].key != "" && Dumpable(entries[j].value)
      {
        if entries[i].key == "" { return false; }
        ok := DumpMapItem(DumpText(entries[i].key), entries[i].value, level);
        if !ok { return false; }
        assert DumpText(entries[i].key) + ":" + Tail(entries[i].value) == FieldText(entries[i]) by {
          FieldTextIs(entries[i]);
        }
        assert entries[i..][0] == entries[i] && entries[i..][1..] == entries[i + 1..];
        i := i + 1;
      }
      ok := true;
    }

    /** The loop of `_dump` over a list. */
    method DumpElements(v: Value, level: nat) returns (ok: bool)
      requires v.List?
      modifies this
      ensures ok <==> forall j :: 0 <= j < |v.items| ==> ItemDumpable(v.items[j])
      ensures ok ==> lines == old(lines) + DumpItems(v.items, level)
      decreases v, 1
    {
      hide ItemDumpable, DumpItem;
      var items := v.items;
      var i := 0;
      ghost var start := lines;
      while i < |items|
        invariant 0 <= i <= |items|
        invariant lines + DumpItems(items[i..], level) == start + DumpItems(items, level)
        invariant forall j :: 0 <= j < i ==> ItemDumpable(items[j])
      {
        ok := DumpListItem(items[i], level);
        if !ok { return false; }
        assert items[i..][0] == items[i] && items[i..][1..] == items[i + 1..];
        i := i + 1;
      }
      ok := true;
    }

    /** `_dump_map_item`, with the key already rendered. */
    method DumpMapItem(key: string, v: Value, level: nat) returns (ok: bool)
      modifies this
      ensures ok <==> Dumpable(v)
      ensures ok ==> lines == old(lines) + [Pad(level) + (key + ":" + Tail(v))] + Below(v, level + 1)
      decreases v, 4
    {
      ok := DumpField(Pad(level), key, v, level + 1);
    }

    /** The line `key: value` after `prefix`, and what stands below it at `level`. */
    method DumpField(prefix: string, key: string, v: Value, level: nat) returns (ok: bool)
      modifies this
      ensures ok <==> Dumpable(v)
      ensures ok ==> lines == old(lines) + [prefix + (key + ":" + Tail(v))] + Below(v, level)
      decreases v, 3
    {
      hide DumpText, DumpEntries, DumpItems, Indented, Split, Chomp, BlockBody, Spaces, BlockForm, IntToString;
      ghost var line := prefix + (key + ":" + Tail(v));
      if v == Map([]) {
        assert prefix + key + ": {}" == line;
        EmptyBelow(v, level);
        Append(prefix + key + ": {}");
        return true;
      } else if v == List([]) {
        assert prefix + key + ": []" == line;
        EmptyBelow(v, level);
        Append(prefix + key + ": []");
        return true;
      } else if v.Map? || v.List? {
        assert prefix + key + ":" == line;
        Append(prefix + key + ":");
        ok := Dump(v, level);
      } else {
        if v.Str? && BlockForm(v.s) {
          assert prefix + key + ": " + Chomp(v.s) == line;
          Append(prefix + key + ": " + Chomp(v.s));
          AppendBlock(v.s, level);
        } else {
          assert prefix + key + ": " + DumpScalar(v) == line;
          Append(prefix + key + ": " + DumpScalar(v));
        }
        ok := true;
      }
    }

    /** The dictionary branch of `_dump_list_item`: the first field takes the dash. */
    method DumpDashed(v: Value, level: nat) returns (ok: bool)
      requires v.Map?
      modifies this
      ensures ok <==> DumpableInside(v)
      ensures ok ==> lines == old(lines) + DumpDashFields(v.entries, level, true)
      decreases v, 3
    {
      hide DumpText, Tail, Below, FieldText, Spaces, Dumpable;
      var entries, first, i := v.entries, true, 0;
      ghost var start := lines;
      while i < |entries|
        invariant 0 <= i <= |entries| && first == (i == 0)
        invariant lines + DumpDashFields(entries[i..], level, first) == start + DumpDashFields(entries, level, true)
        invariant forall j :: 0 <= j < i ==> Dumpable(entries[j].value)
      {
        var prefix := if first then Pad(level) + "- " else Pad(level + 1);
        ok := DumpField(prefix, DumpText(entries[i].key), entries[i].value, level + 2);
        if !ok { return false; }
        FieldTextIs(entries[i]);
        assert entries[i..][0] == entries[i] && entries[i..][1..] == entries[i + 1..];
        first, i := false, i + 1;
      }
      ok := true;
    }

    /** `_dump_list_item` */
    method DumpListItem(v: Value, level: nat) returns (ok: bool)
      modifies this
      ensures ok <==> ItemDumpable(v)
      ensures ok ==> lines == old(lines) + DumpItem(v, level)
      decreases v, 4
    {
      hide DumpText, DumpNode, DumpDashFields, Indented, Split, Chomp, BlockBody, Spaces, BlockForm, IntToString;
      if v == Map([]) {
        ScalarDumpable(v);
        Append(Pad(level) + "- {}");
        return true;
      } else if v.Map? {
        ok := DumpDashed(v, level);
      } else if v.List? {
        Append(Pad(level) + "-");
        ok := Dump(v, level + 1);
      } else {
        ScalarDumpable(v);
        if v.Str? && BlockForm(v.s) {
          assert Pad(level) + "- " + Chomp(v.s) == Pad(level) + "-" + Tail(v);
          Append(Pad(level) + "- " + Chomp(v.s));
          AppendBlock(v.s, level + 1);
        } else {
          assert Pad(level) + "- " + DumpScalar(v) == Pad(level) + "-" + Tail(v);
          Append(Pad(level) + "- " + DumpScalar(v));
        }
        ok := true;
      }
    }
  }

  predicate ItemDumpable(v: Value) {
    if v.Map? then DumpableInside(v) else Dumpable(v)
  }

  lemma ScalarDumpable(v: Value)
    requires IsScalar(v) || v == Map([])
    ensures Dumpable(v) && DumpableInside(v)
  {}

  lemma EmptyBelow(v: Value, level: nat)
    requires v == Map([]) || v == List([])
    ensures Below(v, level) == []
  {}

  lemma FieldTextIs(e: Entry)
    ensures DumpText(e.key) + ":" + Tail(e.value) == FieldText(e)
  {}

  /** `dump_yaml` */
  method DumpDocument(v: Value) returns (ok: bool, text: string)
    ensures ok <==> Dumpable(v)
    ensures ok ==> text == DumpYaml(v)
  {
    var printer := new Printer();
    ok := printer.Dump(v, 0);
    assert [] + DumpNode(v, 0) == DumpNode(v, 0);
    text := Join(printer.lines, '\n') + "\n";
  }

  // ---------- parser ----------

  method ParseBlockCode(rows: seq<string>, start: nat, minSpaces: nat, marker: string)
    returns (text: string, index: nat)
    requires start <= |rows|
    ensures (text, index) == ParseBlock(rows, start, minSpaces, marker)
  {
    hide Strip, IndentOf, Join;
    var parts: seq<string> := [];
    index := start;
    while index < |rows|
      invariant start <= index <= |rows|
      invariant BlockLoop(rows, index, minSpaces, parts) == BlockLoop(rows, start, minSpaces, [])
    {
      if Strip(rows[index]) == "" {
        parts := parts + [""];
      } else {
        if IndentOf(rows[index]) < minSpaces { break; }
        parts := parts + [rows[index][minSpaces..]];
      }
      index := index + 1;
    }
    text := Join(parts, '\n');
    assert text + "" == text;
    if marker == "|" { text := text + "\n"; }
  }

  method ParseNodeCode(rows: seq<string>, index: nat, minIndent: nat) returns (r: Parsed<Value>)
    requires index < |rows|
    ensures r == ParseNode(rows, index, minIndent)
    decreases Ink(rows[index..]), |rows| - index, 2
  {
    hide ListLoop, MapLoop, IndentOf, ParseScalar, LooksLikeMap;
    var indent := IndentOf(rows[index]);
    if indent < minIndent { return Fail(IndentUnderflow); }
    var stripped := rows[index][indent..];
    if stripped == "{}" { return Done(Map([]), index + 1); }
    if stripped == "[]" { return Done(List([]), index + 1); }
    if "-" <= stripped {
      var list := ParseListCode(rows, index, indent);
      match list {
        case Done(items, next) => return Done(List(items), next);
        case Fail(e) => return Fail(e);
      }
    }
    if LooksLikeMap(stripped) {
      var entries := ParseMapCode(rows, index, indent);
      match entries {
        case Done(out, next) => return Done(Map(out), next);
        case Fail(e) => return Fail(e);
      }
    }
    match ParseScalar(stripped) {
      case Ok(v) => return Done(v, index + 1);
      case Err(e) => return Fail(e);
    }
  }

  method ParseMapCode(rows: seq<string>, start: nat, indent: nat) returns (r: Parsed<seq<Entry>>)
    requires start <= |rows|
    ensures r == MapLoop(rows, start, indent, [])
    decreases Ink(rows[start..]), |rows| - start, 1
  {
    hide ParseNode, Strip, LStrip, IndentOf, ParseScalar, ParseKey, ParseBlock, Find, SkipIgnorable, Ignorable, Ink;
    hide HasKey;
    var index, out := start, [];
    while index < |rows|
      invariant start <= index <= |rows|
      invariant MapLoop(rows, index, indent, out) == MapLoop(rows, start, indent, [])
    {
      var line := rows[index];
      if Ignorable(line) {
        index := index + 1;
        continue;
      }
      var current := IndentOf(line);
      if current < indent { break; }
      if current > indent { return Fail(UnexpectedIndent); }
      var stripped := line[current..];
      if "-" <= stripped { break; }
      var colon := Find(stripped, ':');
      if colon == |stripped| { return Fail(ExpectedMapping); }
      var parsed := ParseKey(Strip(stripped[..colon]));
      if parsed.Err? { return Fail(parsed.error); }
      var key := parsed.value;
      if HasKey(out, key) { return Fail(DuplicateKey); }
      var rest := Strip(stripped[colon + 1..]);
      if rest == "" {
        var look := SkipIgnorable(rows, index + 1);
        if look == |rows| || IndentOf(rows[look]) <= indent {
          out, index := out + [Entry(key, Map([]))], index + 1;
          continue;
        }
        InkSuffix(rows, start, look);
        var node := ParseNodeCode(rows, look, indent + 2);
        if node.Fail? { return Fail(node.error); }
        out, index := out + [Entry(key, node.value)], node.next;
        continue;
      }
      if rest == "|" || rest == "|-" {
        var text, next := ParseBlockCode(rows, index + 1, indent + 2, rest);
        out, index := out + [Entry(key, Str(text))], next;
        continue;
      }
      var scalar := ParseScalar(rest);
      if scalar.Err? { return Fail(scalar.error); }
      out, index := out + [Entry(key, scalar.value)], index + 1;
    }
    r := Done(out, index);
  }

  method ParseListCode(rows: seq<string>, start: nat, indent: nat) returns (r: Parsed<seq<Value>>)
    requires start <= |rows|
    ensures r == ListLoop(rows, start, indent, [])
    decreases Ink(rows[start..]), |rows| - start, 1
  {
    hide ParseNode, MapLoop, Strip, LStrip, IndentOf, ParseScalar, ParseBlock, SkipIgnorable, Ignorable, Ink;
    hide LooksLikeMap, NestedEnd;
    var index, out := start, [];
    while index < |rows|
      invariant start <= index <= |rows|
      invariant ListLoop(rows, index, indent, out) == ListLoop(rows, start, indent, [])
    {
      var line := rows[index];
      if Ignorable(line) {
        index := index + 1;
        continue;
      }
      var current := IndentOf(line);
      if current < indent { break; }
      if current > indent { return Fail(UnexpectedListIndent); }
      var stripped := line[current..];
      if !("-" <= stripped) { break; }
      var body := stripped[1..];
      if body == "" {
        var look := SkipIgnorable(rows, index + 1);
        if look == |rows| {
          out, index := out + [Null], index + 1;
          continue;
        }
        InkSuffix(rows, start, look);
        var node := ParseNodeCode(rows, look, indent + 2);
        if node.Fail? { return Fail(node.error); }
        out, index := out + [node.value], node.next;
        continue;
      }
      if !(" " <= body) { return Fail(MalformedListItem); }
      body := body[1..];
      assert stripped[2..] == body;
      if body == "|" || body == "|-" {
        var text, next := ParseBlockCode(rows, index + 1, indent + 2, body);
        out, index := out + [Str(text)], next;
        continue;
      }
      if LooksLikeMap(body) {
        var nested, look := CopyNested(rows, index, indent, body);
        DashLine(line, indent, body);
        NestedInk(rows, index, indent, body, look);
        InkSuffix(rows, start, index);
        assert nested[0..] == nested;
        var entries := ParseMapCode(nested, 0, indent + 2);
        if entries.Fail? { return Fail(entries.error); }
        if entries.next != |nested| { return Fail(MalformedListMapping); }
        out, index := out + [Map(entries.value)], look;
        continue;
      }
      var scalar := ParseScalar(body);
      if scalar.Err? { return Fail(scalar.error); }
      out, index := out + [scalar.value], index + 1;
    }
    r := Done(out, index);
  }

  /** The rows of a dictionary that is a list item, its first line rewritten. */
  method CopyNested(rows: seq<string>, index: nat, indent: nat, body: string) returns (nested: seq<string>, look: nat)
    requires index < |rows|
    ensures look == NestedEnd(rows, index + 1, indent)
    ensures nested == NestedRows(rows, index, indent, body, look)
  {
    hide IndentOf, Spaces;
    nested, look := [Spaces(indent + 2) + body], index + 1;
    while look < |rows|
      invariant index + 1 <= look <= |rows|
      invariant NestedEnd(rows, look, indent) == NestedEnd(rows, index + 1, indent)
      invariant nested == NestedRows(rows, index, indent, body, look)
    {
      if IndentOf(rows[look]) <= indent { break; }
      nested := nested + [rows[look]];
      look := look + 1;
    }
  }

  /** `parse_yaml` */
  method ParseDocument(text: string) returns (r: Result<Value>)
    ensures r == ParseYaml(text)
  {
    hide ParseNode, NormalizeNewlines, Split, RStrip, Strip, Ignorable, SkipIgnorable;
    var rows := RStripAll(Split(NormalizeNewlines(text), '\n'));
    ghost var all := rows;
    while |rows| > 0 && Strip(rows[|rows| - 1]) == ""
      invariant DropBlankTail(rows) == DropBlankTail(all)
    {
      rows := rows[..|rows| - 1];
    }
    var start := SkipIgnorable(rows, 0);
    if start == |rows| { return Err(EmptyDocument); }
    var node := ParseNodeCode(rows, start, 0);
    if node.Fail? { return Err(node.error); }
    if SkipIgnorable(rows, node.next) != |rows| { return Err(UnexpectedContent); }
    r := Ok(node.value);
  }
}
