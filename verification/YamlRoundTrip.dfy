/**
 What the printer of omg_cli/catalog_yaml.py wrote, its parser reads back, anywhere in a document and
 also where the last lines of the last block are missing: `Back` for every unbroken value, and an
 error for every other one.
 */
module YamlRoundTrip {
  import opened Text
  import opened Yaml
  import opened YamlScalars
  import opened YamlShape

  /**
   The printed lines but for the last d, which are blank or comments, stand at `index`.  Behind them the
   rows end or, if none is missing, go on at an indentation below `bound`.
   */
  predicate Stands(rows: seq<string>, index: nat, lines: seq<string>, d: nat, bound: nat) {
    && d <= |lines| && At(rows, index, lines[..|lines| - d]) && Stops(rows, index + |lines| - d, bound)
    && (d > 0 ==> index + |lines| - d == |rows|)
    && forall i :: |lines| - d <= i < |lines| ==> Ignorable(lines[i])
  }

  // ---------- blocks ----------

  lemma {:induction false} BlockParse(parts: seq<string>, level: nat, rows: seq<string>, index: nat, seen: seq<string>)
    requires At(rows, index, Indented(parts, level)) && Stops(rows, index + |parts|, 2 * level)
    ensures BlockLoop(rows, index, 2 * level, seen) == (seen + RStripAll(parts), index + |parts|)
    decreases |parts|
  {
    hide RStrip, Blank, Spaces, IndentOf, Indented, Strip, RStripAll;
    if |parts| == 0 {
      assert seen + RStripAll(parts) == seen;
      BlockStops(rows, index, 2 * level, seen);
    } else {
      assert rows[index + 0] == RStrip(Indented(parts, level)[0]);
      assert Indented(parts, level)[0] == Pad(level) + parts[0];
      BlockRow(parts[0], level);
      forall i | 0 <= i < |parts| - 1 ensures rows[index + 1 + i] == RStrip(Indented(parts[1..], level)[i]) {
        assert rows[index + (i + 1)] == RStrip(Indented(parts, level)[i + 1]);
      }
      BlockParse(parts[1..], level, rows, index + 1, seen + [RStrip(parts[0])]);
      assert seen + [RStrip(parts[0])] + RStripAll(parts[1..]) == seen + RStripAll(parts);
    }
  }

  lemma BlockStops(rows: seq<string>, index: nat, bound: nat, seen: seq<string>)
    requires Stops(rows, index, bound)
    ensures BlockLoop(rows, index, bound, seen) == (seen, index)
  {
    hide Strip, IndentOf;
  }

  /** A block line keeps its indentation and its text up to trailing spaces; a blank one is empty. */
  lemma BlockRow(part: string, level: nat)
    ensures var row := RStrip(Pad(level) + part);
      if Blank(part) then Strip(row) == "" && RStrip(part) == ""
      else Strip(row) != "" && IndentOf(row) >= 2 * level && row[2 * level..] == RStrip(part)
  {
    hide IndentOf, Strip;
    RStripProps(part);
    RStripProps(Pad(level) + part);
    BlankPadded(2 * level, part);
    StripProps(RStrip(Pad(level) + part));
    if !Blank(part) {
      RStripPrefix(Pad(level), part);
      IndentOfAtLeast(2 * level, RStrip(part));
      RStripProps(RStrip(Pad(level) + part));
    }
  }

  lemma BlockValue(s: string, level: nat, rows: seq<string>, index: nat, d: nat)
    requires StrOk(s) && BlockForm(s)
    requires Stands(rows, index, Indented(Split(BlockBody(s), '\n'), level), d, 2 * level)
    ensures ParseBlock(rows, index, 2 * level, Chomp(s)) == (CutBlock(s, d), index + |Split(BlockBody(s), '\n')| - d)
  {
    hide Split, BlockLoop, At, Stops, BlockBody, Blank, RStripAll, Ignorable, Spaces;
    var parts := Split(BlockBody(s), '\n');
    var k := |parts| - d;
    assert Indented(parts[..k], level) == Indented(parts, level)[..k];
    BlockParse(parts[..k], level, rows, index, []);
    assert [] + RStripAll(parts[..k]) == RStripAll(parts[..k]);
  }

  // ---------- regions ----------

  lemma StopsWider(rows: seq<string>, index: nat, bound: nat, wider: nat)
    requires Stops(rows, index, bound) && bound <= wider
    ensures Stops(rows, index, wider)
  {}

  lemma FirstStays(lines: seq<string>, d: nat)
    requires 0 < |lines| && d <= |lines| && !Ignorable(lines[0])
    requires forall i :: |lines| - d <= i < |lines| ==> Ignorable(lines[i])
    ensures d < |lines|
  {
    hide Ignorable;
  }

  /** The first line stands, and the others behind it. */
  lemma StandsFirst(rows: seq<string>, index: nat, line: string, below: seq<string>, d: nat, bound: nat, wider: nat)
    requires Stands(rows, index, [line] + below, d, bound) && !Ignorable(line) && bound <= wider
    ensures index < |rows| && rows[index] == RStrip(line) && Stands(rows, index + 1, below, d, wider)
  {
    hide RStrip, IndentOf, Ignorable, At;
    var lines := [line] + below;
    FirstStays(lines, d);
    assert lines[..|lines| - d] == [line] + below[..|below| - d];
    AtFirst(rows, index, line, below[..|below| - d]);
    forall i | |below| - d <= i < |below| ensures Ignorable(below[i]) {
      assert below[i] == lines[i + 1];
    }
    StopsWider(rows, index + |lines| - d, bound, wider);
  }

  /** Something printed stands in front of something else that is printed. */
  lemma StandsSplit(rows: seq<string>, index: nat, a: seq<string>, b: seq<string>, d: nat, bound: nat)
    requires Stands(rows, index, a + b, d, bound) && d <= |b|
    ensures At(rows, index, a) && Stands(rows, index + |a|, b, d, bound)
  {
    hide RStrip, IndentOf, Ignorable, At;
    assert (a + b)[..|a + b| - d] == a + b[..|b| - d];
    AtSplit(rows, index, a, b[..|b| - d]);
    forall i | |b| - d <= i < |b| ensures Ignorable(b[i]) {
      assert b[i] == (a + b)[|a| + i];
    }
  }

  lemma StandsWhole(rows: seq<string>, index: nat, lines: seq<string>, bound: nat)
    requires At(rows, index, lines) && Stops(rows, index + |lines|, bound)
    ensures Stands(rows, index, lines, 0, bound)
  {
    hide At, Stops;
    assert lines[..|lines| - 0] == lines;
  }

  /** The last d lines end within the last block. */
  lemma StandsEnd(rows: seq<string>, index: nat, lines: seq<string>, d: nat, bound: nat, t: nat)
    requires Stands(rows, index, lines, d, bound) && HeadAt(lines, t)
    ensures d <= t
  {
    hide At, Stops, Ignorable, HeadAt;
    EndIsTip(lines, t, d);
  }

  // ---------- fields ----------

  /** The row of a field, as the dictionary loop sees it. */
  lemma FieldRow(e: Entry, level: nat, row: string)
    requires KeyOk(e.key) && Wide(e.value)
    requires row == RStrip(Pad(level) + FieldText(e))
    ensures !Ignorable(row) && IndentOf(row) == 2 * level && row[2 * level..] == FieldText(e)
    ensures !Ignorable(Pad(level) + FieldText(e))
  {
    hide RStrip, Ignorable, IndentOf, Spaces, FieldText, Solid, KeyOk, Wide, FirstPlain;
    FieldLine(e);
    SolidLine(2 * level, FieldText(e));
  }

  /** What the loop does on the line of a field: the key is known, the value depends on the tail. */
  function FieldStep(rows: seq<string>, index: nat, level: nat, out: seq<Entry>, e: Entry): Parsed<seq<Entry>>
    requires index < |rows|
  {
    var rest := Strip(Tail(e.value));
    if rest == "" then
      var look := SkipIgnorable(rows, index + 1);
      if look == |rows| || IndentOf(rows[look]) <= 2 * level then
        MapLoop(rows, index + 1, 2 * level, out + [Entry(e.key, Map([]))])
      else
        match ParseNode(rows, look, 2 * level + 2)
        case Fail(error) => Fail(error)
        case Done(v, next) => MapLoop(rows, next, 2 * level, out + [Entry(e.key, v)])
    else if rest == "|" || rest == "|-" then
      var (text, next) := ParseBlock(rows, index + 1, 2 * level + 2, rest);
      MapLoop(rows, next, 2 * level, out + [Entry(e.key, Str(text))])
    else
      match ParseScalar(rest)
      case Err(error) => Fail(error)
      case Ok(v) => MapLoop(rows, index + 1, 2 * level, out + [Entry(e.key, v)])
  }

  lemma FieldUnfold(rows: seq<string>, index: nat, level: nat, out: seq<Entry>, e: Entry)
    requires index < |rows| && KeyOk(e.key) && Wide(e.value) && !HasKey(out, e.key)
    requires rows[index] == RStrip(Pad(level) + FieldText(e))
    ensures MapLoop(rows, index, 2 * level, out) == FieldStep(rows, index, level, out, e)
  {
    hide ParseNode, ListLoop, ParseBlock, ParseScalar, ParseKey, Strip, RStrip, IndentOf, Ignorable, SkipIgnorable;
    hide FieldText, Tail, DumpText, KeyOk, Wide, FirstPlain, HasKey, Solid, Find, Ink, CountInk, Spaces;
    FieldRow(e, level, rows[index]);
    FieldLine(e);
    KeyFacts(e.key);
  }

  lemma BracketsParse()
    ensures ParseScalar("{}") == Ok(Map([])) && ParseScalar("[]") == Ok(List([]))
  {
    StripId("{}");
    StripId("[]");
  }

  lemma BlockMarker(s: string)
    ensures Strip(" " + Chomp(s)) == Chomp(s) && Chomp(s) != ""
  {
    LStripBlankPrefix(" ", Chomp(s));
    StripId(Chomp(s));
  }

  /**
   One field of a dictionary is read back and the loop goes on after it, or its value is broken and the loop
   fails.
   */
  lemma {:induction false} FieldParse(e: Entry, level: nat, rows: seq<string>, index: nat, out: seq<Entry>, d: nat)
    requires KeyOk(e.key) && InClass(e.value) && !HasKey(out, e.key)
    requires Stands(rows, index, [Pad(level) + FieldText(e)] + Below(e.value, level + 1), d, 2 * level + 1)
    ensures d <= |Below(e.value, level + 1)|
    ensures Unbroken(e.value) ==>
      MapLoop(rows, index, 2 * level, out)
      == MapLoop(rows, index + 1 + |Below(e.value, level + 1)| - d, 2 * level, out + [Entry(e.key, Back(e.value, d))])
    ensures !Unbroken(e.value) ==> MapLoop(rows, index, 2 * level, out).Fail?
    decreases e.value, 1
  {
    hide MapLoop, ParseNode, ListLoop, ParseBlock, ParseScalar, Strip, RStrip, IndentOf, Ignorable;
    hide FieldText, DumpText, KeyOk, HasKey, Spaces, Stands, DistinctKeys, Wide, FirstPlain, Unbroken, Back, Below;
    hide DumpNode;
    hide StrOk, BlockForm, BlockBody, Chomp, Indented, Split, CutBlock, FieldStep, Tail;
    var line, below := Pad(level) + FieldText(e), Below(e.value, level + 1);
    FieldRow(e, level, RStrip(line));
    StandsFirst(rows, index, line, below, d, 2 * level + 1, 2 * level + 2);
    StandsWithin(rows, index + 1, below, d, 2 * level + 2);
    FieldUnfold(rows, index, level, out, e);
    TailFacts(e.value);
    if IsScalar(e.value) {
      ScalarUnbroken(e.value);
      if e.value.Str? && BlockForm(e.value.s) {
        FieldBlock(e, level, rows, index, out, d);
      } else {
        FieldScalar(e, level, rows, index, out, d);
      }
    } else if e.value == Map([]) || e.value == List([]) {
      FieldEmpty(e, level, rows, index, out, d);
    } else {
      BelowIsNode(e.value, level + 1);
      NodeParse(e.value, level + 1, rows, index + 1, 2 * level + 2, d);
      FieldNode(e, level, rows, index, out);
    }
  }

  lemma ScalarUnbroken(v: Value)
    requires IsScalar(v)
    ensures Unbroken(v) && UnbrokenItem(v)
  {}

  lemma BelowIsNode(v: Value, level: nat)
    requires !IsScalar(v) && v != Map([]) && v != List([])
    ensures Below(v, level) == DumpNode(v, level)
    ensures Strip(Tail(v)) == ""
  {
    hide DumpEntries, DumpItems;
  }

  /** A value below its key is parsed as a node. */
  lemma FieldNode(e: Entry, level: nat, rows: seq<string>, index: nat, out: seq<Entry>)
    requires index + 1 < |rows| && Strip(Tail(e.value)) == ""
    requires !Ignorable(rows[index + 1]) && IndentOf(rows[index + 1]) == 2 * level + 2
    ensures var r := ParseNode(rows, index + 1, 2 * level + 2);
      FieldStep(rows, index, level, out, e) == if r.Fail? then Fail(r.error)
        else MapLoop(rows, r.next, 2 * level, out + [Entry(e.key, r.value)])
  {
    hide MapLoop, ParseNode, ParseBlock, ParseScalar, Strip, IndentOf, Ignorable, Tail;
  }

  lemma FieldBlock(e: Entry, level: nat, rows: seq<string>, index: nat, out: seq<Entry>, d: nat)
    requires index < |rows| && InClass(e.value) && e.value.Str? && BlockForm(e.value.s)
    requires Stands(rows, index + 1, Below(e.value, level + 1), d, 2 * level + 2)
    ensures d <= |Below(e.value, level + 1)|
    ensures FieldStep(rows, index, level, out, e)
         == MapLoop(rows, index + 1 + |Below(e.value, level + 1)| - d, 2 * level,
                    out + [Entry(e.key, Back(e.value, d))])
  {
    hide MapLoop, ParseNode, ParseBlock, ParseScalar, Strip, IndentOf, Stands;
    hide StrOk, BlockBody, Chomp, CutBlock, Split, Indented, BlockForm, Back;
    var s := e.value.s;
    BlockMarker(s);
    ChompIs(s);
    BlockIsNoTilde(s, d);
    BlockBelow(s, level + 1);
    StandsWithin(rows, index + 1, Below(e.value, level + 1), d, 2 * level + 2);
    BlockValue(s, level + 1, rows, index + 1, d);
  }

  lemma FieldEmpty(e: Entry, level: nat, rows: seq<string>, index: nat, out: seq<Entry>, d: nat)
    requires index < |rows| && (e.value == Map([]) || e.value == List([]))
    ensures Below(e.value, level + 1) == [] && Unbroken(e.value)
    ensures FieldStep(rows, index, level, out, e)
      == MapLoop(rows, index + 1, 2 * level, out + [Entry(e.key, Back(e.value, d))])
  {
    hide MapLoop, ParseNode, ParseBlock, ParseScalar, Strip, IndentOf;
    BracketsParse();
    TailFacts(e.value);
    assert Strip(Tail(e.value)) == if e.value.Map? then "{}" else "[]";
    BelowEmpty(e.value, level + 1, d);
  }

  lemma StandsWithin(rows: seq<string>, index: nat, lines: seq<string>, d: nat, bound: nat)
    requires Stands(rows, index, lines, d, bound)
    ensures d <= |lines|
  {}

  lemma BelowEmpty(v: Value, level: nat, d: nat)
    requires v == Map([]) || v == List([])
    ensures Below(v, level) == [] && Back(v, d) == v
  {}

  lemma ChompIs(s: string)
    ensures Chomp(s) == "|" || Chomp(s) == "|-"
  {}

  lemma BlockIsNoTilde(s: string, d: nat)
    requires BlockForm(s)
    ensures Back(Str(s), d) == Str(CutBlock(s, d))
  {}

  lemma FieldScalar(e: Entry, level: nat, rows: seq<string>, index: nat, out: seq<Entry>, d: nat)
    requires index < |rows| && InClass(e.value)
    requires IsScalar(e.value) && (e.value.Str? ==> !BlockForm(e.value.s))
    ensures Below(e.value, level + 1) == []
    ensures FieldStep(rows, index, level, out, e)
         == MapLoop(rows, index + 1, 2 * level, out + [Entry(e.key, Back(e.value, d))])
  {
    hide MapLoop, ParseNode, ParseBlock, ParseScalar, Strip, IndentOf, DumpText, IntToString;
    hide StrOk, CutBlock, Split, Indented, IsSpace;
    ScalarRoundTrip(e.value);
    TailFacts(e.value);
    assert Tail(e.value)[1..] == DumpScalar(e.value);
  }

  /** A nested dictionary or list is read back by `ParseNode`, or is broken and fails. */
  lemma {:induction false} NodeParse(v: Value, level: nat, rows: seq<string>, index: nat, minIndent: nat, d: nat)
    requires InClass(v) && !IsScalar(v) && minIndent <= 2 * level
    requires Stands(rows, index, DumpNode(v, level), d, 2 * level)
    ensures d < |DumpNode(v, level)|
    ensures index < |rows| && !Ignorable(rows[index]) && IndentOf(rows[index]) == 2 * level
    ensures Unbroken(v) ==> ParseNode(rows, index, minIndent) == Done(Back(v, d), index + |DumpNode(v, level)| - d)
    ensures !Unbroken(v) ==> ParseNode(rows, index, minIndent).Fail?
    decreases v, 0
  {
    hide MapLoop, ListLoop, ParseScalar, RStrip, IndentOf, Ignorable, Ink, Stands, Spaces, LooksLikeMap;
    hide FieldText, KeyOk, DumpEntries, DumpItems, IsPlain, DistinctKeys;
    NodeHead(v, level);
    StandsEnd(rows, index, DumpNode(v, level), d, 2 * level, TipParts(v));
    HeadWithin(DumpNode(v, level), TipParts(v));
    if v == Map([]) {
      BracketsNode(v, "{}", level, rows, index, d);
    } else if v == List([]) {
      BracketsNode(v, "[]", level, rows, index, d);
    } else if v.Map? {
      MapNode(v.entries, level, rows, index, d);
      EntriesParse(v.entries, level, rows, index, [], d);
      assert [] + BackEntries(v.entries, d) == BackEntries(v.entries, d);
    } else {
      ListNode(v.items, level, rows, index, d);
      ItemsParse(v.items, level, rows, index, [], d);
      assert [] + BackItems(v.items, d) == BackItems(v.items, d);
    }
  }

  lemma HeadWithin(lines: seq<string>, t: nat)
    requires HeadAt(lines, t)
    ensures t < |lines|
  {}

  /** The first row of a printed dictionary sends `ParseNode` to the dictionary loop. */
  lemma MapNode(entries: seq<Entry>, level: nat, rows: seq<string>, index: nat, d: nat)
    requires |entries| > 0 && IsPlain(entries[0].key) && FieldsOk(entries)
    requires Stands(rows, index, DumpEntries(entries, level), d, 2 * level)
    ensures index < |rows| && !Ignorable(rows[index]) && IndentOf(rows[index]) == 2 * level
    ensures var stripped := rows[index][2 * level..];
      LooksLikeMap(stripped) && !("-" <= stripped) && stripped != "{}" && stripped != "[]"
  {
    hide RStrip, IndentOf, Ignorable, Stands, Spaces, LooksLikeMap, FieldText, KeyOk, DumpEntries, IsPlain, Wide;
    hide FirstPlain;
    FirstField(entries, level, rows, index, d, 2 * level);
    FirstKeyLooksLikeMap(entries[0]);
  }

  /** The row of the first field. */
  lemma FirstField(entries: seq<Entry>, level: nat, rows: seq<string>, index: nat, d: nat, bound: nat)
    requires |entries| > 0 && WideFields(entries) && Stands(rows, index, DumpEntries(entries, level), d, bound)
    ensures index < |rows| && rows[index] == RStrip(Pad(level) + FieldText(entries[0]))
    ensures !Ignorable(rows[index]) && IndentOf(rows[index]) == 2 * level
    ensures rows[index][2 * level..] == FieldText(entries[0])
  {
    hide RStrip, IndentOf, Ignorable, Stands, Spaces, FieldText, KeyOk, DumpEntries, Wide, FirstPlain;
    EntriesFirst(entries, level);
    FieldRow(entries[0], level, RStrip(Pad(level) + FieldText(entries[0])));
    StandsFirst(rows, index, Pad(level) + FieldText(entries[0]), DumpEntries(entries, level)[1..], d, bound, bound);
  }

  /** The first row of a printed list sends `ParseNode` to the list loop. */
  lemma ListNode(items: seq<Value>, level: nat, rows: seq<string>, index: nat, d: nat)
    requires |items| > 0 && Wide(items[0]) && Stands(rows, index, DumpItems(items, level), d, 2 * level)
    ensures index < |rows| && !Ignorable(rows[index]) && IndentOf(rows[index]) == 2 * level
    ensures var stripped := rows[index][2 * level..];
      "-" <= stripped && stripped != "{}" && stripped != "[]"
  {
    hide RStrip, IndentOf, Ignorable, Stands, Spaces, ItemText, Wide, FirstPlain, DumpItems;
    FirstItem(items, level, rows, index, d, 2 * level);
  }

  lemma FirstItem(items: seq<Value>, level: nat, rows: seq<string>, index: nat, d: nat, bound: nat)
    requires |items| > 0 && Wide(items[0]) && Stands(rows, index, DumpItems(items, level), d, bound)
    ensures index < |rows| && !Ignorable(rows[index]) && IndentOf(rows[index]) == 2 * level
    ensures rows[index][2 * level..] == ItemText(items[0]) && "-" <= ItemText(items[0])
  {
    hide RStrip, IndentOf, Ignorable, Stands, Spaces, ItemText, ItemBelow, DumpItem, Wide, FirstPlain;
    ItemShape(items[0], level);
    var below := ItemBelow(items[0], level) + DumpItems(items[1..], level);
    assert DumpItems(items, level) == [Pad(level) + ItemText(items[0])] + below;
    ItemRow(items[0], level, RStrip(Pad(level) + ItemText(items[0])));
    StandsFirst(rows, index, Pad(level) + ItemText(items[0]), below, d, bound, bound);
  }

  lemma BracketsNode(v: Value, s: string, level: nat, rows: seq<string>, index: nat, d: nat)
    requires (v == Map([]) && s == "{}") || (v == List([]) && s == "[]")
    requires Stands(rows, index, DumpNode(v, level), d, 2 * level) && d < |DumpNode(v, level)|
    ensures DumpNode(v, level) == [Pad(level) + s] && Back(v, d) == v
    ensures index < |rows| && !Ignorable(rows[index]) && IndentOf(rows[index]) == 2 * level
    ensures rows[index][2 * level..] == s
  {
    hide RStrip, IndentOf, Ignorable, Spaces, Stands;
    assert DumpNode(v, level) == [Pad(level) + s] + [];
    SolidLine(2 * level, s);
    StandsFirst(rows, index, Pad(level) + s, [], d, 2 * level, 2 * level);
  }

  lemma FirstKeyLooksLikeMap(e: Entry)
    requires KeyOk(e.key) && IsPlain(e.key) && Wide(e.value)
    ensures LooksLikeMap(FieldText(e)) && FieldText(e)[0] != '{' && FieldText(e)[0] != '['
    ensures |FieldText(e)| > 0 && FieldText(e)[0] != '-' && FieldText(e)[0] != '|'
  {
    hide Wide, FirstPlain, IsPlain, Tail;
    FieldLine(e);
    KeyFacts(e.key);
    assert FieldText(e)[|DumpText(e.key)|] == ':';
  }

  lemma ItemRow(v: Value, level: nat, row: string)
    requires Wide(v) && row == RStrip(Pad(level) + ItemText(v))
    ensures !Ignorable(row) && IndentOf(row) == 2 * level && row[2 * level..] == ItemText(v) && "-" <= ItemText(v)
    ensures !Ignorable(Pad(level) + ItemText(v))
  {
    hide RStrip, Ignorable, IndentOf, Spaces, ItemText, Solid, Wide, FirstPlain;
    ItemLine(v);
    SolidLine(2 * level, ItemText(v));
  }

  /**
   The dictionary loop reads printed fields back in order, behind those already read, or meets a broken value
   and fails.
   */
  lemma {:induction false} EntriesParse(entries: seq<Entry>, level: nat, rows: seq<string>, index: nat,
                                        out: seq<Entry>, d: nat)
    requires FieldsOk(entries)
    requires forall i :: 0 <= i < |entries| ==> !HasKey(out, entries[i].key)
    requires Stands(rows, index, DumpEntries(entries, level), d, 2 * level)
    ensures d <= |DumpEntries(entries, level)|
    ensures Unbroken(Map(entries)) ==>
      MapLoop(rows, index, 2 * level, out)
          == Done(out + BackEntries(entries, d), index + |DumpEntries(entries, level)| - d)
    ensures !Unbroken(Map(entries)) ==> MapLoop(rows, index, 2 * level, out).Fail?
    decreases entries
  {
    hide MapLoop, RStrip, IndentOf, Ignorable, FieldText, Spaces, Below, KeyOk;
    hide Wide, FirstPlain, At, Back, Stops, HasKey, Stands, DumpEntries, Unbroken;
    StandsWithin(rows, index, DumpEntries(entries, level), d, 2 * level);
    UnbrokenFirst(entries);
    if |entries| == 0 {
      NoEntries(level);
      assert DumpEntries(entries, level) == [];
      MapEnd(rows, index, 2 * level, out) by { StandsStops(rows, index, DumpEntries(entries, level), d, 2 * level); }
      assert out + BackEntries(entries, d) == out;
    } else {
      var e := entries[0];
      var lines := [Pad(level) + FieldText(e)] + Below(e.value, level + 1);
      var rest := DumpEntries(entries[1..], level);
      EntriesFirst(entries, level);
      assert DumpEntries(entries, level) == lines + rest;
      if |entries| == 1 {
        OneEntry(entries, level, d);
        assert lines + rest == lines;
        StandsWider(rows, index, lines, d, 2 * level, 2 * level + 1);
        FieldParse(e, level, rows, index, out, d);
        var next := index + |lines| - d;
        if Unbroken(e.value) {
          MapEnd(rows, next, 2 * level, out + [Entry(e.key, Back(e.value, d))]) by {
            StandsStops(rows, index, lines, d, 2 * level);
          }
        }
      } else {
        MoreEntries(entries, level, d) by { EntriesEnd(entries[1..], level, rows, index, lines, d); }
        StandsSplit(rows, index, lines, rest, d, 2 * level);
        var next := index + |lines|;
        FirstField(entries[1..], level, rows, next, d, 2 * level);
        StandsWhole(rows, index, lines, 2 * level + 1) by { RowStops(rows, next, 2 * level, 2 * level + 1); }
        FieldParse(e, level, rows, index, out, 0);
        var out' := out + [Entry(e.key, Back(e.value, 0))];
        FreshKeys(entries, out, Back(e.value, 0));
        EntriesParse(entries[1..], level, rows, next, out', d);
        assert out' + BackEntries(entries[1..], d) == out + BackEntries(entries, d);
      }
    }
  }

  lemma UnbrokenFirst(entries: seq<Entry>)
    ensures Unbroken(Map(entries)) <==> |entries| == 0 || (Unbroken(entries[0].value) && Unbroken(Map(entries[1..])))
  {
    if |entries| > 0 && Unbroken(entries[0].value) && Unbroken(Map(entries[1..])) {
      forall i | 0 <= i < |entries| ensures Unbroken(entries[i].value) {
        if i > 0 { assert entries[i] == entries[1..][i - 1]; }
      }
    }
  }

  lemma OneEntry(entries: seq<Entry>, level: nat, d: nat)
    requires |entries| == 1
    ensures DumpEntries(entries[1..], level) == [] && Unbroken(Map(entries[1..]))
    ensures BackEntries(entries, d) == [Entry(entries[0].key, Back(entries[0].value, d))]
  {
    hide Back;
    assert entries[1..] == [];
    assert BackEntries(entries[1..], d) == [];
  }

  /** With more fields behind it the missing lines are not those of the first. */
  lemma MoreEntries(entries: seq<Entry>, level: nat, d: nat)
    requires |entries| > 1 && d <= |DumpEntries(entries[1..], level)|
    ensures d <= |DumpEntries(entries[1..], level)|
    ensures BackEntries(entries, d) == [Entry(entries[0].key, Back(entries[0].value, 0))] + BackEntries(entries[1..], d)
  {
    hide Back;
  }

  lemma EntriesEnd(entries: seq<Entry>, level: nat, rows: seq<string>, index: nat, front: seq<string>, d: nat)
    requires |entries| > 0 && WideFields(entries)
    requires Stands(rows, index, front + DumpEntries(entries, level), d, 2 * level)
    ensures d <= |DumpEntries(entries, level)|
  {
    hide Stands, DumpEntries, KeyOk, Wide, FirstPlain, HeadAt;
    EntriesHead(entries, level);
    HeadFurther(front, DumpEntries(entries, level), TipParts(Map(entries)));
    StandsEnd(rows, index, front + DumpEntries(entries, level), d, 2 * level, TipParts(Map(entries)));
    HeadWithin(DumpEntries(entries, level), TipParts(Map(entries)));
  }

  lemma StandsStops(rows: seq<string>, index: nat, lines: seq<string>, d: nat, bound: nat)
    requires Stands(rows, index, lines, d, bound)
    ensures d <= |lines| && Stops(rows, index + |lines| - d, bound)
  {
    hide At, Stops, Ignorable;
  }

  lemma StandsWider(rows: seq<string>, index: nat, lines: seq<string>, d: nat, bound: nat, wider: nat)
    requires Stands(rows, index, lines, d, bound) && bound <= wider
    ensures Stands(rows, index, lines, d, wider)
  {
    hide At, Ignorable, IndentOf;
    StopsWider(rows, index + |lines| - d, bound, wider);
  }

  lemma RowStops(rows: seq<string>, index: nat, indent: nat, bound: nat)
    requires index < |rows| && !Ignorable(rows[index]) && IndentOf(rows[index]) == indent < bound
    ensures Stops(rows, index, bound)
  {}

  lemma MapEnd(rows: seq<string>, index: nat, indent: nat, out: seq<Entry>)
    requires Stops(rows, index, indent)
    ensures MapLoop(rows, index, indent, out) == Done(out, index)
  {
    hide ParseNode, ListLoop, ParseBlock, ParseScalar, ParseKey, Strip, IndentOf, Ignorable, SkipIgnorable, Find, Ink;
  }

  lemma FreshKeys(entries: seq<Entry>, out: seq<Entry>, v: Value)
    requires |entries| > 0 && DistinctKeys(entries)
    requires forall i :: 0 <= i < |entries| ==> !HasKey(out, entries[i].key)
    ensures DistinctKeys(entries[1..])
    ensures forall i :: 0 <= i < |entries| - 1 ==> !HasKey(out + [Entry(entries[0].key, v)], entries[1..][i].key)
  {
    forall i | 0 <= i < |entries| - 1 ensures !HasKey(out + [Entry(entries[0].key, v)], entries[1..][i].key) {
      assert entries[1..][i] == entries[i + 1];
      assert entries[0].key != entries[i + 1].key;
      assert !HasKey(out, entries[i + 1].key);
    }
  }

  // ---------- items ----------

  /** The list loop reads printed items back in order, or meets a broken one and fails. */
  lemma {:induction false} ItemsParse(items: seq<Value>, level: nat, rows: seq<string>, index: nat, out: seq<Value>,
                                      d: nat)
    requires forall i :: 0 <= i < |items| ==> InClass(items[i])
    requires Stands(rows, index, DumpItems(items, level), d, 2 * level)
    ensures d <= |DumpItems(items, level)|
    ensures Unbroken(List(items)) ==>
      ListLoop(rows, index, 2 * level, out) == Done(out + BackItems(items, d), index + |DumpItems(items, level)| - d)
    ensures !Unbroken(List(items)) ==> ListLoop(rows, index, 2 * level, out).Fail?
    decreases items
  {
    hide ListLoop, RStrip, IndentOf, Ignorable, Spaces, Wide, FirstPlain, At;
    hide BackItem, ItemText, DumpItem, Stops, Stands, DumpItems, Unbroken, UnbrokenItem;
    StandsWithin(rows, index, DumpItems(items, level), d, 2 * level);
    UnbrokenFirstItem(items);
    if |items| == 0 {
      NoItems(level);
      assert DumpItems(items, level) == [];
      ListEnd(rows, index, 2 * level, out) by { StandsStops(rows, index, DumpItems(items, level), d, 2 * level); }
      assert out + BackItems(items, d) == out;
    } else {
      var lines, rest := DumpItem(items[0], level), DumpItems(items[1..], level);
      assert DumpItems(items, level) == lines + rest by { FirstLines(items, level); }
      if |items| == 1 {
        OneItem(items, level, d);
        assert lines + rest == lines;
        StandsWider(rows, index, lines, d, 2 * level, 2 * level + 1);
        ItemParse(items[0], level, rows, index, out, d);
        if UnbrokenItem(items[0]) {
          ListEnd(rows, index + |lines| - d, 2 * level, out + [BackItem(items[0], d)]) by {
            StandsStops(rows, index, lines, d, 2 * level);
          }
        }
      } else {
        MoreItems(items, level, d) by { ItemsEnd(items[1..], level, rows, index, lines, d); }
        StandsSplit(rows, index, lines, rest, d, 2 * level);
        var next := index + |lines|;
        FirstItem(items[1..], level, rows, next, d, 2 * level);
        StandsWhole(rows, index, lines, 2 * level + 1) by { RowStops(rows, next, 2 * level, 2 * level + 1); }
        ItemParse(items[0], level, rows, index, out, 0);
        ItemsParse(items[1..], level, rows, next, out + [BackItem(items[0], 0)], d);
        assert out + [BackItem(items[0], 0)] + BackItems(items[1..], d) == out + BackItems(items, d);
      }
    }
  }

  lemma ListEnd(rows: seq<string>, index: nat, indent: nat, out: seq<Value>)
    requires Stops(rows, index, indent)
    ensures ListLoop(rows, index, indent, out) == Done(out, index)
  {
    hide ParseNode, MapLoop, ParseBlock, ParseScalar, IndentOf, Ignorable, SkipIgnorable, LooksLikeMap, NestedEnd;
    hide NestedRows, Ink;
  }

  lemma FirstLines(items: seq<Value>, level: nat)
    requires |items| > 0
    ensures DumpItems(items, level) == DumpItem(items[0], level) + DumpItems(items[1..], level)
  {
    hide DumpItem;
  }

  lemma UnbrokenFirstItem(items: seq<Value>)
    ensures Unbroken(List(items)) <==> |items| == 0 || (UnbrokenItem(items[0]) && Unbroken(List(items[1..])))
  {
    hide UnbrokenItem;
    if |items| > 0 && UnbrokenItem(items[0]) && Unbroken(List(items[1..])) {
      forall i | 0 <= i < |items| ensures UnbrokenItem(items[i]) {
        if i > 0 { assert items[i] == items[1..][i - 1]; }
      }
    }
  }

  lemma OneItem(items: seq<Value>, level: nat, d: nat)
    requires |items| == 1
    ensures DumpItems(items[1..], level) == [] && Unbroken(List(items[1..]))
    ensures BackItems(items, d) == [BackItem(items[0], d)]
  {
    hide BackItem;
    assert items[1..] == [];
    assert BackItems(items[1..], d) == [];
  }

  lemma MoreItems(items: seq<Value>, level: nat, d: nat)
    requires |items| > 1 && d <= |DumpItems(items[1..], level)|
    ensures d <= |DumpItems(items[1..], level)|
    ensures BackItems(items, d) == [BackItem(items[0], 0)] + BackItems(items[1..], d)
  {
    hide BackItem;
  }

  lemma ItemsEnd(items: seq<Value>, level: nat, rows: seq<string>, index: nat, front: seq<string>, d: nat)
    requires |items| > 0 && (forall i :: 0 <= i < |items| ==> Wide(items[i]))
    requires Stands(rows, index, front + DumpItems(items, level), d, 2 * level)
    ensures d <= |DumpItems(items, level)|
  {
    hide Stands, DumpItems, Wide, FirstPlain, HeadAt;
    ItemsHead(items, level);
    HeadFurther(front, DumpItems(items, level), TipParts(List(items)));
    StandsEnd(rows, index, front + DumpItems(items, level), d, 2 * level, TipParts(List(items)));
    HeadWithin(DumpItems(items, level), TipParts(List(items)));
  }

  /** The row of a list item that is not skipped. */
  predicate DashRow(rows: seq<string>, index: nat, indent: nat, stripped: string) {
    index < |rows| && !Ignorable(rows[index]) && IndentOf(rows[index]) == indent && rows[index][indent..] == stripped
  }

  lemma ListScalarStep(rows: seq<string>, index: nat, indent: nat, out: seq<Value>, text: string, v: Value)
    requires DashRow(rows, index, indent, text) && "- " <= text
    requires text[2..] != "|" && text[2..] != "|-" && !LooksLikeMap(text[2..]) && ParseScalar(text[2..]) == Ok(v)
    ensures ListLoop(rows, index, indent, out) == ListLoop(rows, index + 1, indent, out + [v])
  {
    hide ParseNode, MapLoop, ParseBlock, ParseScalar, Ignorable, LooksLikeMap, NestedEnd, NestedRows, SkipIgnorable;
    hide Ink;
  }

  lemma ListBlockStep(rows: seq<string>, index: nat, indent: nat, out: seq<Value>, text: string, s: string, next: nat)
    requires DashRow(rows, index, indent, text) && "- " <= text && (text[2..] == "|" || text[2..] == "|-")
    requires ParseBlock(rows, index + 1, indent + 2, text[2..]) == (s, next)
    ensures ListLoop(rows, index, indent, out) == ListLoop(rows, next, indent, out + [Str(s)])
  {
    hide ParseNode, MapLoop, ParseBlock, ParseScalar, Ignorable, LooksLikeMap, NestedEnd, NestedRows, SkipIgnorable;
    hide Ink;
  }

  lemma ListNodeStep(rows: seq<string>, index: nat, indent: nat, out: seq<Value>, r: Parsed<Value>)
    requires DashRow(rows, index, indent, "-") && index + 1 < |rows| && !Ignorable(rows[index + 1])
    requires ParseNode(rows, index + 1, indent + 2) == r
    ensures ListLoop(rows, index, indent, out) == if r.Done? then ListLoop(rows, r.next, indent, out + [r.value])
      else Fail(r.error)
  {
    hide ParseNode, MapLoop, ParseBlock, ParseScalar, Ignorable, LooksLikeMap, NestedEnd, NestedRows, Ink;
  }

  /** One item of a list is read back and the loop goes on after it, or it is broken and the loop fails. */
  lemma {:induction false} ItemParse(v: Value, level: nat, rows: seq<string>, index: nat, out: seq<Value>, d: nat)
    requires InClass(v)
    requires Stands(rows, index, DumpItem(v, level), d, 2 * level + 1)
    ensures d <= |DumpItem(v, level)|
    ensures UnbrokenItem(v) ==>
      ListLoop(rows, index, 2 * level, out)
      == ListLoop(rows, index + |DumpItem(v, level)| - d, 2 * level, out + [BackItem(v, d)])
    ensures !UnbrokenItem(v) ==> ListLoop(rows, index, 2 * level, out).Fail?
    decreases v, 1
  {
    hide ParseNode, ListLoop, RStrip, IndentOf, Ignorable, Stands, Spaces, DumpItem, DumpNode, ItemText, ItemBelow;
    hide DashRow;
    hide Wide, FirstPlain, Unbroken, UnbrokenItem, Back, BackItem, StrOk, BlockForm;
    ItemShape(v, level);
    var line := Pad(level) + ItemText(v);
    ItemRow(v, level, RStrip(line));
    StandsFirst(rows, index, line, ItemBelow(v, level), d, 2 * level + 1, 2 * level + 2);
    StandsWithin(rows, index + 1, ItemBelow(v, level), d, 2 * level + 2);
    RowIsDash(rows, index, 2 * level, ItemText(v));
    if IsScalar(v) {
      ScalarUnbroken(v);
      ScalarBack(v, d);
      if v.Str? && BlockForm(v.s) {
        ItemBlock(v.s, level, rows, index, out, d) by { ClassStr(v); }
      } else {
        ItemScalar(v, level, d);
        ListScalarStep(rows, index, 2 * level, out, ItemText(v), Back(v, d));
      }
    } else if v.List? {
      ItemOfList(v, level, d);
      NodeParse(v, level + 1, rows, index + 1, 2 * level + 2, d);
      ListNodeStep(rows, index, 2 * level, out, ParseNode(rows, index + 1, 2 * level + 2));
    } else if v == Map([]) {
      EmptyItem(level, d);
      ListScalarStep(rows, index, 2 * level, out, ItemText(v), v);
    } else {
      DashParse(v, level, rows, index, out, d);
    }
  }

  lemma RowIsDash(rows: seq<string>, index: nat, indent: nat, text: string)
    requires index < |rows| && !Ignorable(rows[index]) && IndentOf(rows[index]) == indent
    requires rows[index][indent..] == text
    ensures DashRow(rows, index, indent, text)
  {
    hide Ignorable, IndentOf;
  }

  lemma ScalarBack(v: Value, d: nat)
    requires IsScalar(v)
    ensures BackItem(v, d) == Back(v, d)
  {
    hide Back;
  }

  lemma ClassStr(v: Value)
    requires InClass(v) && v.Str?
    ensures StrOk(v.s)
  {}

  lemma ItemOfList(v: Value, level: nat, d: nat)
    requires v.List?
    ensures ItemText(v) == "-" && ItemBelow(v, level) == DumpNode(v, level + 1)
    ensures BackItem(v, d) == Back(v, d) && (UnbrokenItem(v) <==> Unbroken(v))
  {
    hide DumpNode, Back, Unbroken;
  }

  lemma EmptyItem(level: nat, d: nat)
    ensures ItemBelow(Map([]), level) == [] && BackItem(Map([]), d) == Map([]) && UnbrokenItem(Map([]))
    ensures ItemText(Map([])) == "- {}" && "- {}"[2..] == "{}" && !LooksLikeMap("{}")
    ensures ParseScalar("{}") == Ok(Map([]))
  {
    hide ParseScalar;
    BracketsParse();
    NoMapLook("{}");
  }

  lemma ItemBlock(s: string, level: nat, rows: seq<string>, index: nat, out: seq<Value>, d: nat)
    requires StrOk(s) && BlockForm(s) && DashRow(rows, index, 2 * level, ItemText(Str(s)))
    requires d <= |ItemBelow(Str(s), level)| && Stands(rows, index + 1, ItemBelow(Str(s), level), d, 2 * level + 2)
    ensures ListLoop(rows, index, 2 * level, out)
         == ListLoop(rows, index + 1 + |ItemBelow(Str(s), level)| - d, 2 * level, out + [Back(Str(s), d)])
  {
    hide ListLoop, ParseBlock, Stands, Below, StrOk, BlockForm, BlockBody, Chomp, Split, CutBlock, Ignorable, IndentOf;
    hide Back, Spaces;
    ChompIs(s);
    assert ItemText(Str(s)) == "- " + Chomp(s) by { BlockItemText(s); }
    BlockIsNoTilde(s, d);
    BlockBelow(s, level + 1);
    BlockValue(s, level + 1, rows, index + 1, d);
    ListBlockStep(rows, index, 2 * level, out, ItemText(Str(s)), CutBlock(s, d),
                  index + 1 + |ItemBelow(Str(s), level)| - d);
  }

  lemma BlockItemText(s: string)
    requires BlockForm(s)
    ensures ItemText(Str(s)) == "- " + Chomp(s)
  {
    hide BlockForm, Chomp;
  }

  lemma BlockBelow(s: string, level: nat)
    requires BlockForm(s)
    ensures Below(Str(s), level) == Indented(Split(BlockBody(s), '\n'), level)
  {}

  lemma NoMapLook(s: string)
    requires s == "{}"
    ensures !LooksLikeMap(s)
  {}

  lemma ItemScalar(v: Value, level: nat, d: nat)
    requires InClass(v) && IsScalar(v) && (v.Str? ==> !BlockForm(v.s))
    ensures "- " <= ItemText(v) && ItemBelow(v, level) == []
    ensures var body := ItemText(v)[2..];
      && body != "|" && body != "|-" && !LooksLikeMap(body) && body == DumpScalar(v)
    ensures ParseScalar(DumpScalar(v)) == Ok(Back(v, d))
  {
    hide ParseScalar, Strip, DumpText, IntToString, StrOk, CutBlock, Split, Indented, IsSpace;
    ScalarRoundTrip(v);
    assert ItemText(v) == "- " + DumpScalar(v);
  }

  lemma {:induction false} NestedEndIs(rows: seq<string>, look: nat, end: nat, indent: nat)
    requires look <= end <= |rows|
    requires forall i :: look <= i < end ==> IndentOf(rows[i]) > indent
    requires end < |rows| ==> IndentOf(rows[end]) <= indent
    ensures NestedEnd(rows, look, indent) == end
    decreases end - look
  {
    hide IndentOf;
    if look < end { NestedEndIs(rows, look + 1, end, indent); }
  }

  // ---------- dictionaries in lists ----------

  /** The lines of a dictionary but for the last d stand behind its dash, at `index`. */
  predicate ItemAt(rows: seq<string>, index: nat, inner: seq<string>, d: nat, indent: nat) {
    && d < |inner| && index + |inner| - d <= |rows|
    && (forall i :: index < i < index + |inner| - d ==> rows[i] == RStrip(inner[i - index]))
    && Stops(rows, index + |inner| - d, indent + 1) && (d > 0 ==> index + |inner| - d == |rows|)
    && forall i :: |inner| - d <= i < |inner| ==> Ignorable(inner[i])
  }

  lemma ItemRows(v: Value, level: nat, rows: seq<string>, index: nat, d: nat)
    requires Wide(v) && v.Map? && |v.entries| > 0 && Stands(rows, index, DumpItem(v, level), d, 2 * level + 1)
    ensures var inner := DumpEntries(v.entries, level + 1);
      && |DumpItem(v, level)| == |inner| && ItemAt(rows, index, inner, d, 2 * level) && Deep(inner, level + 1)
      && inner[0] == Pad(level + 1) + FieldText(v.entries[0])
    ensures DashRow(rows, index, 2 * level, "- " + FieldText(v.entries[0]))
  {
    hide RStrip, IndentOf, Ignorable, Spaces, FieldText, KeyOk, IsPlain, DumpEntries, DumpItem, Stops, DistinctKeys;
    hide Stands, Deep;
    var inner := DumpEntries(v.entries, level + 1);
    EntriesFirst(v.entries, level + 1);
    ItemShape(v, level);
    var line := Pad(level) + ItemText(v);
    ItemRow(v, level, RStrip(line));
    StandsFirst(rows, index, line, inner[1..], d, 2 * level + 1, 2 * level + 1);
    DeepEntries(v.entries, level + 1);
    BehindDash(rows, index, inner, d, 2 * level);
  }

  lemma BehindDash(rows: seq<string>, index: nat, inner: seq<string>, d: nat, indent: nat)
    requires |inner| > 0 && Stands(rows, index + 1, inner[1..], d, indent + 1)
    ensures ItemAt(rows, index, inner, d, indent)
  {
    hide RStrip, IndentOf, Ignorable, Stops;
    var below := inner[1..];
    forall i | index < i < index + |inner| - d ensures rows[i] == RStrip(inner[i - index]) {
      assert rows[index + 1 + (i - index - 1)] == RStrip(below[..|below| - d][i - index - 1]);
    }
    forall i | |inner| - d <= i < |inner| ensures Ignorable(inner[i]) {
      assert inner[i] == below[i - 1];
    }
  }

  /** A row of the item that is not blank is deeper than the dash. */
  lemma ItemDeep(rows: seq<string>, index: nat, inner: seq<string>, d: nat, level: nat, i: nat)
    requires ItemAt(rows, index, inner, d, 2 * level) && Deep(inner, level + 1) && index < i < index + |inner| - d
    ensures i < |rows| && rows[i] == RStrip(inner[i - index])
    ensures if Blank(inner[i - index]) then rows[i] == "" else IndentOf(rows[i]) > 2 * level
    ensures Ignorable(rows[i]) <==> Ignorable(inner[i - index])
  {
    hide RStrip, IndentOf, Ignorable, Stops, Blank;
    RStripProps(inner[i - index]);
    RStripIgnorable(inner[i - index]);
  }

  lemma RStripIgnorable(s: string)
    ensures Ignorable(RStrip(s)) <==> Ignorable(s)
  {
    hide IsSpace, LStrip;
    RStripProps(s);
    RStripProps(RStrip(s));
    StripProps(s);
    StripProps(RStrip(s));
    if !Blank(s) { LStripOfRStrip(s); }
  }

  lemma {:induction false} LStripOfRStrip(s: string)
    requires !Blank(s)
    ensures LStrip(RStrip(s)) == RStrip(LStrip(s))
    ensures "#" <= RStrip(LStrip(s)) <==> "#" <= LStrip(s)
  {
    if IsSpace(s[0]) {
      RStripPrefix([s[0]], s[1..]);
      assert s == [s[0]] + s[1..];
      LStripBlankPrefix([s[0]], RStrip(s[1..]));
      LStripOfRStrip(s[1..]);
    } else {
      RStripProps(s);
      assert RStrip(s)[0] == s[0];
    }
  }

  /** The nested rows end at the first blank line, or behind the item. */
  lemma NestedEndAt(rows: seq<string>, index: nat, inner: seq<string>, d: nat, level: nat)
    requires ItemAt(rows, index, inner, d, 2 * level) && Deep(inner, level + 1) && Gap(inner) < |inner|
    ensures NestedEnd(rows, index + 1, 2 * level) == index + |inner| - Max(d, Gap(inner))
  {
    hide RStrip, IndentOf, Ignorable, Blank, NestedEnd, ItemAt, Deep, Gap;
    var g := Gap(inner);
    var end := index + |inner| - Max(d, g);
    forall i | index + 1 <= i < end ensures i < |rows| && IndentOf(rows[i]) > 2 * level {
      ItemDeep(rows, index, inner, d, level, i);
      assert !Blank(inner[i - index]);
    }
    ItemBounds(rows, index, inner, d, 2 * level);
    if g > d {
      ItemDeep(rows, index, inner, d, level, end);
      assert IndentOf("") == 0 by { EmptyIndent(); }
    }
    NestedEndIs(rows, index + 1, end, 2 * level);
  }

  lemma EmptyIndent()
    ensures IndentOf("") == 0
  {}

  lemma ItemBounds(rows: seq<string>, index: nat, inner: seq<string>, d: nat, indent: nat)
    requires ItemAt(rows, index, inner, d, indent)
    ensures d < |inner| && index + |inner| - d <= |rows|
    ensures index + |inner| - d < |rows| ==> IndentOf(rows[index + |inner| - d]) <= indent
  {
    hide IndentOf, RStrip, Ignorable;
  }

  /** The nested rows are the lines of the dictionary a level deeper, cut at the first blank one. */
  lemma NestedStands(rows: seq<string>, index: nat, inner: seq<string>, d: nat, level: nat, body: string)
    requires ItemAt(rows, index, inner, d, 2 * level) && Gap(inner) < |inner| && !Broken(inner)
    requires RStrip(inner[0]) == Pad(level + 1) + body
    ensures var cut := Max(d, Gap(inner));
      var end := index + |inner| - cut;
      && index < end <= |rows| && |NestedRows(rows, index, 2 * level, body, end)| == |inner| - cut
      && Stands(NestedRows(rows, index, 2 * level, body, end), 0, inner, cut, 2 * level + 2)
  {
    hide RStrip, IndentOf, Ignorable, Blank, Broken, Gap;
    var cut := Max(d, Gap(inner));
    var end := index + |inner| - cut;
    var nested := NestedRows(rows, index, 2 * level, body, end);
    GapIsIgnorable(inner);
    var kept := inner[..|inner| - cut];
    forall i | 0 <= i < |kept| ensures nested[0 + i] == RStrip(kept[i]) {
      if i > 0 { assert nested[i] == rows[index + i]; }
    }
  }

  /** What the list loop does on the dash of a dictionary. */
  lemma DashStep(rows: seq<string>, index: nat, indent: nat, out: seq<Value>, body: string, end: nat)
    requires DashRow(rows, index, indent, "- " + body) && LooksLikeMap(body) && index < end <= |rows|
    requires NestedEnd(rows, index + 1, indent) == end
    ensures var r := MapLoop(NestedRows(rows, index, indent, body, end), 0, indent + 2, []);
      ListLoop(rows, index, indent, out) ==
        if r.Fail? then Fail(r.error)
        else if r.next != end - index then Fail(MalformedListMapping)
        else ListLoop(rows, end, indent, out + [Map(r.value)])
  {
    hide ParseNode, MapLoop, ParseBlock, ParseScalar, IndentOf, Ignorable, NestedEnd, SkipIgnorable, Ink, LStrip;
    assert ("- " + body)[2..] == body;
    NoBarLooksLikeMap(body);
  }

  lemma NoBarLooksLikeMap(body: string)
    requires LooksLikeMap(body)
    ensures body != "|" && body != "|-"
  {}

  lemma {:induction false} SkipRows(rows: seq<string>, a: nat, b: nat, indent: nat, out: seq<Value>)
    requires a <= b <= |rows| && forall i :: a <= i < b ==> Ignorable(rows[i])
    ensures ListLoop(rows, a, indent, out) == ListLoop(rows, b, indent, out)
    decreases b - a
  {
    hide ParseNode, MapLoop, ParseBlock, ParseScalar, IndentOf, Ignorable, NestedEnd, NestedRows, SkipIgnorable;
    hide LooksLikeMap, Ink;
    if a < b { SkipRows(rows, a + 1, b, indent, out); }
  }

  /** Behind the nested rows a row that is not skipped is too deep for the list. */
  lemma {:induction false} TooDeep(rows: seq<string>, a: nat, q: nat, indent: nat, out: seq<Value>)
    requires a <= q < |rows| && !Ignorable(rows[q])
    requires forall i :: a <= i <= q ==> Ignorable(rows[i]) || IndentOf(rows[i]) > indent
    ensures ListLoop(rows, a, indent, out).Fail?
    decreases q - a
  {
    hide ParseNode, MapLoop, ParseBlock, ParseScalar, IndentOf, Ignorable, NestedEnd, NestedRows, SkipIgnorable;
    hide LooksLikeMap, Ink;
    if Ignorable(rows[a]) { TooDeep(rows, a + 1, q, indent, out); }
  }

  /** A broken item: behind its first blank line stands a row that is neither blank nor a comment. */
  lemma BrokenItem(rows: seq<string>, index: nat, inner: seq<string>, d: nat, level: nat) returns (q: nat)
    requires ItemAt(rows, index, inner, d, 2 * level) && Deep(inner, level + 1) && Broken(inner) && Gap(inner) < |inner|
    ensures index + |inner| - Max(d, Gap(inner)) <= q < index + |inner| - d <= |rows| && !Ignorable(rows[q])
    ensures forall i :: index + |inner| - Max(d, Gap(inner)) <= i <= q ==>
      Ignorable(rows[i]) || IndentOf(rows[i]) > 2 * level
  {
    hide RStrip, IndentOf, Ignorable, Blank, Deep, Stops, Gap;
    var first, last :| 0 <= first < last < |inner| && Blank(inner[first]) && !Ignorable(inner[last]);
    q := index + last;
    assert |inner| - Gap(inner) <= first;
    ItemDeep(rows, index, inner, d, level, q);
    forall i | index + |inner| - Max(d, Gap(inner)) <= i <= q
      ensures Ignorable(rows[i]) || IndentOf(rows[i]) > 2 * level
    {
      ItemDeep(rows, index, inner, d, level, i);
      if Blank(inner[i - index]) { BlankIsIgnorable(inner[i - index]); }
    }
  }

  /** What is left of an unbroken item is skipped. */
  lemma LeftOver(rows: seq<string>, index: nat, inner: seq<string>, d: nat, level: nat)
    requires ItemAt(rows, index, inner, d, 2 * level) && Deep(inner, level + 1) && !Broken(inner)
    requires Gap(inner) < |inner|
    ensures forall i :: index + |inner| - Max(d, Gap(inner)) <= i < index + |inner| - d ==> Ignorable(rows[i])
  {
    hide RStrip, IndentOf, Ignorable, Blank, Deep, ItemAt, Broken, Gap;
    GapIsIgnorable(inner);
    forall i | index + |inner| - Max(d, Gap(inner)) <= i < index + |inner| - d
      ensures i < |rows| && Ignorable(rows[i])
    {
      ItemDeep(rows, index, inner, d, level, i);
    }
  }

  /** The first line of a dictionary is not blank. */
  lemma GapInside(inner: seq<string>, level: nat, body: string)
    requires |inner| > 0 && inner[0] == Pad(level) + body && Solid(body)
    ensures Gap(inner) < |inner| && RStrip(inner[0]) == Pad(level) + body
  {
    hide IsSpace, RStrip, Spaces;
    SolidLine(2 * level, body);
    BlankPadded(2 * level, body);
  }

  /** A broken item fails, whatever its nested rows parse to. */
  lemma BrokenFails(rows: seq<string>, index: nat, inner: seq<string>, d: nat, level: nat, out: seq<Value>,
                    body: string)
    requires ItemAt(rows, index, inner, d, 2 * level) && Deep(inner, level + 1) && Gap(inner) < |inner| && Broken(inner)
    requires DashRow(rows, index, 2 * level, "- " + body) && LooksLikeMap(body)
    ensures ListLoop(rows, index, 2 * level, out).Fail?
  {
    hide MapLoop, ListLoop, RStrip, IndentOf, Ignorable, NestedEnd, NestedRows, DashRow, LooksLikeMap, Broken, Gap;
    hide Deep, ItemAt;
    ItemBounds(rows, index, inner, d, 2 * level);
    var end := index + |inner| - Max(d, Gap(inner));
    NestedEndAt(rows, index, inner, d, level);
    DashStep(rows, index, 2 * level, out, body, end);
    var q := BrokenItem(rows, index, inner, d, level);
    forall more: seq<Value> ensures ListLoop(rows, end, 2 * level, more).Fail? {
      TooDeep(rows, end, q, 2 * level, more);
    }
  }

  /** An unbroken item is what its nested rows parse to; the rows left of it are skipped. */
  lemma UnbrokenGoesOn(rows: seq<string>, index: nat, inner: seq<string>, d: nat, level: nat, out: seq<Value>,
                       body: string)
    requires ItemAt(rows, index, inner, d, 2 * level) && Deep(inner, level + 1) && Gap(inner) < |inner|
    requires !Broken(inner)
    requires DashRow(rows, index, 2 * level, "- " + body) && LooksLikeMap(body)
    ensures var cut := Max(d, Gap(inner));
      cut < |inner| && index + |inner| - d <= |rows|
    ensures var cut := Max(d, Gap(inner));
      var r := MapLoop(NestedRows(rows, index, 2 * level, body, index + |inner| - cut), 0, 2 * level + 2, []);
      ListLoop(rows, index, 2 * level, out) ==
        if r.Fail? then Fail(r.error)
        else if r.next != |inner| - cut then Fail(MalformedListMapping)
        else ListLoop(rows, index + |inner| - d, 2 * level, out + [Map(r.value)])
  {
    hide MapLoop, ListLoop, RStrip, IndentOf, Ignorable, NestedEnd, NestedRows, DashRow, LooksLikeMap, Broken, Gap;
    hide Deep, ItemAt;
    ItemBounds(rows, index, inner, d, 2 * level);
    var end := index + |inner| - Max(d, Gap(inner));
    NestedEndAt(rows, index, inner, d, level);
    DashStep(rows, index, 2 * level, out, body, end);
    LeftOver(rows, index, inner, d, level);
    forall more: seq<Value>
      ensures ListLoop(rows, end, 2 * level, more) == ListLoop(rows, index + |inner| - d, 2 * level, more)
    {
      SkipRows(rows, end, index + |inner| - d, 2 * level, more);
    }
  }

  /**
   A dictionary in a list.  The rows copied for it end at its first blank line: they are those of the same
   dictionary a level deeper, cut there.  What is left of it is skipped, or is too deep for the list.
   */
  lemma {:induction false} DashParse(v: Value, level: nat, rows: seq<string>, index: nat, out: seq<Value>, d: nat)
    requires InClass(v) && v.Map? && |v.entries| > 0
    requires Stands(rows, index, DumpItem(v, level), d, 2 * level + 1)
    ensures d <= |DumpItem(v, level)|
    ensures UnbrokenItem(v) ==>
      ListLoop(rows, index, 2 * level, out)
      == ListLoop(rows, index + |DumpItem(v, level)| - d, 2 * level, out + [BackItem(v, d)])
    ensures !UnbrokenItem(v) ==> ListLoop(rows, index, 2 * level, out).Fail?
    decreases v, 0
  {
    hide MapLoop, ListLoop, RStrip, NestedRows, Solid, Unbroken, UnbrokenItem, Back, BackItem, DashRow, Wide;
    hide FirstPlain;
    hide Spaces, DumpItem, DumpEntries, KeyOk, LooksLikeMap, FieldText, Broken, Stands, Gap, Deep, ItemAt, OwnLines;
    var e, inner := v.entries[0], DumpEntries(v.entries, level + 1);
    ItemRows(v, level, rows, index, d);
    MapInClass(v);
    FieldLine(e);
    FirstKeyLooksLikeMap(e);
    GapInside(inner, level + 1, FieldText(e));
    OwnLinesAt(v.entries, level + 1);
    UnbrokenMap(v, d);
    ItemBounds(rows, index, inner, d, 2 * level);
    if Broken(inner) {
      BrokenFails(rows, index, inner, d, level, out, FieldText(e));
    } else {
      var cut := Max(d, Gap(inner));
      UnbrokenGoesOn(rows, index, inner, d, level, out, FieldText(e));
      NestedStands(rows, index, inner, d, level, FieldText(e));
      EntriesParse(v.entries, level + 1, NestedRows(rows, index, 2 * level, FieldText(e), index + |inner| - cut), 0, [],
                   cut);
      assert [] + BackEntries(v.entries, cut) == BackEntries(v.entries, cut);
    }
  }

  lemma MapInClass(v: Value)
    requires InClass(v) && v.Map? && |v.entries| > 0
    ensures KeyOk(v.entries[0].key) && IsPlain(v.entries[0].key) && InClass(v.entries[0].value) && FieldsOk(v.entries)
  {
    hide KeyOk, IsPlain;
  }

  lemma UnbrokenMap(v: Value, d: nat)
    requires v.Map?
    ensures UnbrokenItem(v) <==> !Broken(OwnLines(v.entries)) && Unbroken(Map(v.entries))
    ensures BackItem(v, d) == Map(BackEntries(v.entries, Max(d, Gap(OwnLines(v.entries)))))
  {
    hide OwnLines, Broken, Gap;
    assert v == Map(v.entries);
    BackOfMap(v, Max(d, Gap(OwnLines(v.entries))));
  }

  lemma BackOfMap(v: Value, d: nat)
    requires v.Map?
    ensures Back(v, d) == Map(BackEntries(v.entries, d))
  {}
}
