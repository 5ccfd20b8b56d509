/** What the parser of omg_cli/catalog_yaml.py can yield: never a carriage return, and no key with a colon. */
module YamlReads {
  import opened Text
  import opened Yaml

  predicate NoReturn(s: string) { '\r' !in s }

  /** No carriage return anywhere and no colon in a key. */
  predicate Readable(v: Value)
    decreases v
  {
    match v
    case Str(s) => NoReturn(s)
    case List(items) => forall i :: 0 <= i < |items| ==> Readable(items[i])
    case Map(entries) => forall i :: 0 <= i < |entries| ==> ReadableKey(entries[i].key) && Readable(entries[i].value)
    case _ => true
  }

  predicate ReadableKey(key: string) { NoReturn(key) && ':' !in key }

  predicate ReadableEntries(entries: seq<Entry>) {
    forall i :: 0 <= i < |entries| ==> ReadableKey(entries[i].key) && Readable(entries[i].value)
  }

  predicate ReadableItems(items: seq<Value>) { forall i :: 0 <= i < |items| ==> Readable(items[i]) }

  /** No row holds a carriage return. */
  predicate Rowed(rows: seq<string>) { forall i :: 0 <= i < |rows| ==> NoReturn(rows[i]) }

  // ---------- texts ----------

  /** Every character of s is one of t. */
  predicate From(s: string, t: string) { forall c :: c in s ==> c in t }

  lemma {:induction false} StripFrom(s: string)
    ensures From(Strip(s), s)
  {
    LStripProps(s);
    RStripProps(LStrip(s));
  }

  lemma {:induction false} UnescapeFrom(s: string)
    ensures Unescape(s).Ok? ==> forall c :: c in Unescape(s).value ==> c in s || c == '\n'
    decreases |s|
  {
    if |s| > 0 && s[0] == '\\' {
      if |s| > 1 {
        UnescapeFrom(s[2..]);
        assert forall c :: c in s[2..] ==> c in s;
        assert s[1] in s;
      }
    } else if |s| > 0 {
      UnescapeFrom(s[1..]);
      assert forall c :: c in s[1..] ==> c in s;
    }
  }

  lemma {:induction false} DoubledFrom(s: string)
    ensures From(ReplaceDoubledQuotes(s), s)
    decreases |s|
  {
    if "''" <= s {
      DoubledFrom(s[2..]);
      assert s[0] == '\'';
      assert forall c :: c in s[2..] ==> c in s;
    } else if |s| > 0 {
      DoubledFrom(s[1..]);
      assert forall c :: c in s[1..] ==> c in s;
    }
  }

  /** A scalar holds no character that its text does not, but for line breaks. */
  lemma ScalarFrom(raw: string)
    ensures var r := ParseScalar(raw); r.Ok? ==>
      && (r.value.Str? ==> forall c :: c in r.value.s ==> c in raw || c == '\n')
      && (r.value.List? ==> r.value == List([])) && (r.value.Map? ==> r.value == Map([]))
  {
    hide Strip, Unescape, ReplaceDoubledQuotes, ParseDigits, AllDigits;
    var text := Strip(raw);
    StripFrom(raw);
    if |text| >= 2 {
      var inner := text[1..|text| - 1];
      assert From(inner, text);
      UnescapeFrom(inner);
      DoubledFrom(inner);
    }
  }

  lemma ScalarReads(raw: string)
    requires NoReturn(raw)
    ensures ParseScalar(raw).Ok? ==> Readable(ParseScalar(raw).value)
  {
    hide ParseScalar;
    ScalarFrom(raw);
  }

  lemma KeyReads(raw: string)
    requires NoReturn(raw) && ':' !in raw
    ensures ParseKey(raw).Ok? ==> ReadableKey(ParseKey(raw).value)
  {
    hide ParseScalar;
    ScalarFrom(raw);
  }

  lemma PartReads(row: string, k: nat)
    requires NoReturn(row) && k <= |row|
    ensures NoReturn(row[k..]) && NoReturn(row[..k])
    ensures NoReturn(Strip(row[k..])) && NoReturn(Strip(row[..k])) && (':' !in row[..k] ==> ':' !in Strip(row[..k]))
  {
    hide Strip;
    StripFrom(row[k..]);
    StripFrom(row[..k]);
  }

  lemma {:induction false} BlockReads(rows: seq<string>, index: nat, minSpaces: nat, parts: seq<string>)
    requires index <= |rows| && Rowed(rows) && Rowed(parts)
    ensures Rowed(BlockLoop(rows, index, minSpaces, parts).0)
    decreases |rows| - index
  {
    hide Strip, IndentOf;
    if index < |rows| {
      if Strip(rows[index]) == "" {
        BlockReads(rows, index + 1, minSpaces, parts + [""]);
      } else if IndentOf(rows[index]) >= minSpaces {
        assert NoReturn(rows[index][minSpaces..]);
        BlockReads(rows, index + 1, minSpaces, parts + [rows[index][minSpaces..]]);
      }
    }
  }

  lemma {:induction false} JoinReads(parts: seq<string>)
    requires Rowed(parts)
    ensures NoReturn(Join(parts, '\n'))
  {
    if |parts| > 1 { JoinReads(parts[1..]); }
  }

  lemma TextReads(rows: seq<string>, index: nat, minSpaces: nat, marker: string)
    requires index <= |rows| && Rowed(rows)
    ensures NoReturn(ParseBlock(rows, index, minSpaces, marker).0)
  {
    hide BlockLoop, Join;
    BlockReads(rows, index, minSpaces, []);
    JoinReads(BlockLoop(rows, index, minSpaces, []).0);
  }

  lemma NestedReads(rows: seq<string>, index: nat, indent: nat, body: string, end: nat)
    requires index < end <= |rows| && Rowed(rows) && NoReturn(body)
    ensures Rowed(NestedRows(rows, index, indent, body, end))
  {
    var nested := NestedRows(rows, index, indent, body, end);
    forall i | 0 <= i < |nested| ensures NoReturn(nested[i]) {
      if i > 0 { assert nested[i] == rows[index + i]; }
    }
  }

  // ---------- the parser ----------

  lemma {:induction false} NodeReads(rows: seq<string>, index: nat, minIndent: nat)
    requires index < |rows| && Rowed(rows)
    ensures var r := ParseNode(rows, index, minIndent); r.Done? ==> Readable(r.value)
    decreases Ink(rows[index..]), |rows| - index, 1
  {
    hide MapLoop, ListLoop, ParseScalar, IndentOf, LooksLikeMap, Ink, NoReturn, ReadableKey;
    var indent := IndentOf(rows[index]);
    PartReads(rows[index], indent);
    MapReads(rows, index, indent, []);
    ListReads(rows, index, indent, []);
    ScalarReads(rows[index][indent..]);
  }

  lemma OneMoreEntry(out: seq<Entry>, key: string, v: Value)
    requires ReadableEntries(out) && ReadableKey(key) && Readable(v)
    ensures ReadableEntries(out + [Entry(key, v)])
  {
    hide Readable, ReadableKey;
  }

  lemma {:induction false} MapReads(rows: seq<string>, index: nat, indent: nat, out: seq<Entry>)
    requires index <= |rows| && Rowed(rows) && ReadableEntries(out)
    ensures var r := MapLoop(rows, index, indent, out); r.Done? ==> ReadableEntries(r.value)
    decreases Ink(rows[index..]), |rows| - index, 0
  {
    hide ParseNode, ListLoop, ParseBlock, ParseScalar, ParseKey, Strip, IndentOf, Ignorable, SkipIgnorable, Find, Ink;
    hide HasKey;
    hide NoReturn, ReadableKey, ReadableEntries;
    if index < |rows| {
      var line := rows[index];
      var current := IndentOf(line);
      var stripped := line[current..];
      var colon := Find(stripped, ':');
      InkSuffix(rows, index, index + 1);
      if Ignorable(line) {
        MapReads(rows, index + 1, indent, out);
      } else if current == indent && !("-" <= stripped) && colon < |stripped| {
        PartReads(line, current);
        PartReads(stripped, colon);
        PartReads(stripped, colon + 1);
        KeyReads(Strip(stripped[..colon]));
        var key := ParseKey(Strip(stripped[..colon]));
        if key.Ok? && !HasKey(out, key.value) {
          MapValueReads(rows, index, indent, out, key.value, Strip(stripped[colon + 1..]));
        }
      }
    }
  }

  /** The value of a field, and the fields behind it. */
  lemma {:induction false} MapValueReads(rows: seq<string>, index: nat, indent: nat, out: seq<Entry>, key: string,
                                         rest: string)
    requires index < |rows| && Rowed(rows) && ReadableEntries(out) && ReadableKey(key) && NoReturn(rest)
    requires Ink(rows[index + 1..]) <= Ink(rows[index..])
    ensures rest == "" ==>
      var look := SkipIgnorable(rows, index + 1);
      if look == |rows| || IndentOf(rows[look]) <= indent
      then ReadsOn(MapLoop(rows, index + 1, indent, out + [Entry(key, Map([]))]))
      else
        var p := ParseNode(rows, look, indent + 2);
        p.Done? ==> ReadsOn(MapLoop(rows, p.next, indent, out + [Entry(key, p.value)]))
    ensures rest == "|" || rest == "|-" ==>
      var (text, next) := ParseBlock(rows, index + 1, indent + 2, rest);
      ReadsOn(MapLoop(rows, next, indent, out + [Entry(key, Str(text))]))
    ensures ParseScalar(rest).Ok? ==>
      ReadsOn(MapLoop(rows, index + 1, indent, out + [Entry(key, ParseScalar(rest).value)]))
    decreases Ink(rows[index..]), |rows| - index - 1, 2
  {
    hide ParseNode, MapLoop, ListLoop, ParseBlock, ParseScalar, IndentOf, SkipIgnorable, Ink;
    hide NoReturn, ReadableKey, ReadableEntries;
    if rest == "" {
      var look := SkipIgnorable(rows, index + 1);
      if look == |rows| || IndentOf(rows[look]) <= indent {
        OneMoreEntry(out, key, Map([]));
        MapReads(rows, index + 1, indent, out + [Entry(key, Map([]))]);
      } else {
        InkSuffix(rows, index, look);
        NodeReads(rows, look, indent + 2);
        var p := ParseNode(rows, look, indent + 2);
        if p.Done? {
          InkSuffix(rows, index, p.next);
          OneMoreEntry(out, key, p.value);
          MapReads(rows, p.next, indent, out + [Entry(key, p.value)]);
        }
      }
    }
    if rest == "|" || rest == "|-" {
      var b := ParseBlock(rows, index + 1, indent + 2, rest);
      TextReads(rows, index + 1, indent + 2, rest);
      InkSuffix(rows, index, b.1);
      OneMoreEntry(out, key, Str(b.0));
      MapReads(rows, b.1, indent, out + [Entry(key, Str(b.0))]);
    }
    ScalarReads(rest);
    if ParseScalar(rest).Ok? {
      OneMoreEntry(out, key, ParseScalar(rest).value);
      MapReads(rows, index + 1, indent, out + [Entry(key, ParseScalar(rest).value)]);
    }
  }

  predicate ReadsOn(r: Parsed<seq<Entry>>) { r.Done? ==> ReadableEntries(r.value) }

  lemma OneMoreItem(out: seq<Value>, v: Value)
    requires ReadableItems(out) && Readable(v)
    ensures ReadableItems(out + [v])
  {
    hide Readable;
  }

  lemma {:induction false} ListReads(rows: seq<string>, index: nat, indent: nat, out: seq<Value>)
    requires index <= |rows| && Rowed(rows) && ReadableItems(out)
    ensures var r := ListLoop(rows, index, indent, out); r.Done? ==> ReadableItems(r.value)
    decreases Ink(rows[index..]), |rows| - index, 0
  {
    hide ParseNode, MapLoop, ParseBlock, ParseScalar, Strip, IndentOf;
    hide Ignorable, SkipIgnorable, LooksLikeMap, NestedEnd, NestedRows, Ink;
    hide NoReturn, ReadableKey, ReadableItems, ReadableEntries;
    if index < |rows| {
      var line := rows[index];
      var current := IndentOf(line);
      var stripped := line[current..];
      InkSuffix(rows, index, index + 1);
      PartReads(line, current);
      if Ignorable(line) {
        ListReads(rows, index + 1, indent, out);
      } else if current == indent && stripped == "-" {
        var look := SkipIgnorable(rows, index + 1);
        if look == |rows| {
          OneMoreItem(out, Null);
          ListReads(rows, index + 1, indent, out + [Null]);
        } else {
          InkSuffix(rows, index, look);
          NodeReads(rows, look, indent + 2);
          var p := ParseNode(rows, look, indent + 2);
          if p.Done? {
            InkSuffix(rows, index, p.next);
            OneMoreItem(out, p.value);
            ListReads(rows, p.next, indent, out + [p.value]);
          }
        }
      } else if current == indent && "- " <= stripped {
        var body := stripped[2..];
        PartReads(stripped, 2);
        if body == "|" || body == "|-" {
          var b := ParseBlock(rows, index + 1, indent + 2, body);
          TextReads(rows, index + 1, indent + 2, body);
          InkSuffix(rows, index, b.1);
          OneMoreItem(out, Str(b.0));
          ListReads(rows, b.1, indent, out + [Str(b.0)]);
        } else if LooksLikeMap(body) {
          ListMapReads(rows, index, indent, out, body);
        } else {
          ScalarReads(body);
          if ParseScalar(body).Ok? {
            OneMoreItem(out, ParseScalar(body).value);
            ListReads(rows, index + 1, indent, out + [ParseScalar(body).value]);
          }
        }
      }
    }
  }

  /** A dictionary in a list, and the items behind it. */
  lemma {:induction false} ListMapReads(rows: seq<string>, index: nat, indent: nat, out: seq<Value>, body: string)
    requires index < |rows| && Rowed(rows) && ReadableItems(out) && NoReturn(body)
    requires IndentOf(rows[index]) == indent && "- " <= rows[index][indent..] && body == rows[index][indent..][2..]
    ensures var end := NestedEnd(rows, index + 1, indent);
      var r := MapLoop(NestedRows(rows, index, indent, body, end), 0, indent + 2, []);
      r.Done? ==> var t := ListLoop(rows, end, indent, out + [Map(r.value)]); t.Done? ==> ReadableItems(t.value)
    decreases Ink(rows[index..]), |rows| - index - 1, 2
  {
    hide ParseNode, MapLoop, ListLoop, IndentOf, NestedEnd, NestedRows, Ink;
    hide NoReturn, ReadableKey, ReadableItems;
    var end := NestedEnd(rows, index + 1, indent);
    var nested := NestedRows(rows, index, indent, body, end);
    DashLine(rows[index], indent, body);
    NestedInk(rows, index, indent, body, end);
    assert nested[0..] == nested;
    NestedReads(rows, index, indent, body, end);
    MapReads(nested, 0, indent + 2, []);
    var r := MapLoop(nested, 0, indent + 2, []);
    InkSuffix(rows, index, end);
    if r.Done? {
      MapOfEntries(r.value);
      OneMoreItem(out, Map(r.value));
      ListReads(rows, end, indent, out + [Map(r.value)]);
    }
  }

  lemma MapOfEntries(entries: seq<Entry>)
    requires ReadableEntries(entries)
    ensures Readable(Map(entries))
  {}

  // ---------- documents ----------

  lemma {:induction false} NormalizeReads(s: string)
    ensures NoReturn(NormalizeNewlines(s))
    decreases |s|
  {
    if |s| > 0 {
      if s[0] == '\r' {
        NormalizeReads(if |s| > 1 && s[1] == '\n' then s[2..] else s[1..]);
      } else {
        NormalizeReads(s[1..]);
      }
    }
  }

  lemma {:induction false} DropReads(rows: seq<string>)
    requires Rowed(rows)
    ensures Rowed(DropBlankTail(rows))
  {
    hide Strip;
    if |rows| > 0 && Strip(rows[|rows| - 1]) == "" { DropReads(rows[..|rows| - 1]); }
  }

  lemma RowsRead(text: string)
    ensures Rowed(Rows(text))
  {
    hide NormalizeNewlines, Split, RStrip, DropBlankTail;
    var t := NormalizeNewlines(text);
    NormalizeReads(text);
    JoinSplit(t, '\n');
    var parts := Split(t, '\n');
    forall i | 0 <= i < |parts| ensures NoReturn(RStrip(parts[i])) {
      RStripProps(parts[i]);
    }
    DropReads(RStripAll(parts));
  }

  /** Whatever the text: a value that is read holds no carriage return, and no key with a colon. */
  lemma ParsedIsReadable(text: string)
    ensures ParseYaml(text).Ok? ==> Readable(ParseYaml(text).value)
  {
    hide Rows, ParseNode, Readable;
    RowsRead(text);
    var rows := Rows(text);
    var start := SkipIgnorable(rows, 0);
    if start < |rows| { NodeReads(rows, start, 0); }
  }
}
