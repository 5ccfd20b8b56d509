/**
 What the printer of omg_cli/catalog_yaml.py writes, line by line: indentation, blank lines, the block
 that ends a value, and the value that is left when such a block loses its last lines.
 */
module YamlShape {
  import opened Text
  import opened Yaml
  import opened YamlScalars

  predicate DistinctKeys(entries: seq<Entry>) {
    forall i, j :: 0 <= i < j < |entries| ==> entries[i].key != entries[j].key
  }

  /**
   Any nesting of what the parser can tell apart on its lines: no carriage returns, no line breaks or colons in
   keys.
   */
  predicate Wide(v: Value)
    decreases v
  {
    match v
    case Str(s) => StrOk(s)
    case List(items) => forall i :: 0 <= i < |items| ==> Wide(items[i])
    case Map(entries) =>
      DistinctKeys(entries) && forall i :: 0 <= i < |entries| ==> KeyOk(entries[i].key) && Wide(entries[i].value)
    case _ => true
  }

  /** The first key of every dictionary is plain. */
  predicate FirstPlain(v: Value)
    decreases v
  {
    match v
    case List(items) => forall i :: 0 <= i < |items| ==> FirstPlain(items[i])
    case Map(entries) =>
      && (|entries| > 0 ==> IsPlain(entries[0].key))
      && forall i :: 0 <= i < |entries| ==> FirstPlain(entries[i].value)
    case _ => true
  }

  predicate InClass(v: Value) { Wide(v) && FirstPlain(v) }

  /** Fields as they stand in a dictionary, or from some field of one on. */
  predicate WideFields(entries: seq<Entry>) {
    && DistinctKeys(entries)
    && forall i :: 0 <= i < |entries| ==> KeyOk(entries[i].key) && Wide(entries[i].value)
  }

  /** The same where the first-key rule holds inside their values. */
  predicate FieldsOk(entries: seq<Entry>) {
    WideFields(entries) && forall i :: 0 <= i < |entries| ==> FirstPlain(entries[i].value)
  }

  // ---------- blank lines ----------

  /** A blank line is followed, somewhere, by a line that is neither blank nor a comment. */
  predicate Broken(lines: seq<string>) {
    exists p, q :: 0 <= p < q < |lines| && Blank(lines[p]) && !Ignorable(lines[q])
  }

  /** The number of lines from the first blank one on. */
  function Gap(lines: seq<string>): (g: nat)
    ensures g <= |lines|
    ensures forall i :: 0 <= i < |lines| - g ==> !Blank(lines[i])
    ensures g > 0 ==> Blank(lines[|lines| - g])
  {
    if |lines| == 0 then 0 else if Blank(lines[0]) then |lines| else Gap(lines[1..])
  }

  /** The lines of a dictionary printed by itself. */
  function OwnLines(entries: seq<Entry>): seq<string> { DumpEntries(entries, 0) }

  /** No dictionary inside a list is broken. */
  predicate Unbroken(v: Value)
    decreases v, 0
  {
    match v
    case List(items) => forall i :: 0 <= i < |items| ==> UnbrokenItem(items[i])
    case Map(entries) => forall i :: 0 <= i < |entries| ==> Unbroken(entries[i].value)
    case _ => true
  }

  predicate UnbrokenItem(v: Value)
    decreases v, 1
  {
    (v.Map? ==> !Broken(OwnLines(v.entries))) && Unbroken(v)
  }

  // ---------- what comes back ----------

  /** A block string that has lost its last d lines. */
  function CutBlock(s: string, d: nat): string {
    var parts := Split(BlockBody(s), '\n');
    Join(RStripAll(parts[..if d <= |parts| then |parts| - d else 0]), '\n')
        + (if EndsWithChar(s, '\n') then "\n" else "")
  }

  /**
   What comes back when the last d printed lines are missing: "~" reads as null, lines of a block lose
   trailing spaces, and the last block loses the d lines.
   */
  function Back(v: Value, d: nat): Value
    decreases v, 0
  {
    match v
    case Str(s) => if s == "~" then Null else if BlockForm(s) then Str(CutBlock(s, d)) else v
    case List(items) => List(BackItems(items, d))
    case Map(entries) => Map(BackEntries(entries, d))
    case _ => v
  }

  function BackEntries(entries: seq<Entry>, d: nat): (r: seq<Entry>)
    ensures |r| == |entries|
    decreases entries
  {
    if |entries| == 0 then []
    else [Entry(entries[0].key, Back(entries[0].value, if |entries| == 1 then d else 0))] + BackEntries(entries[1..], d)
  }

  function BackItems(items: seq<Value>, d: nat): (r: seq<Value>)
    ensures |r| == |items|
    decreases items
  {
    if |items| == 0 then []
    else [BackItem(items[0], if |items| == 1 then d else 0)] + BackItems(items[1..], d)
  }

  /** A dictionary inside a list ends at its first blank line. */
  function BackItem(v: Value, d: nat): Value
    decreases v, 1
  {
    if v.Map? then Back(v, Max(d, Gap(OwnLines(v.entries)))) else Back(v, d)
  }

  function Max(a: nat, b: nat): nat { if a < b then b else a }

  // ---------- regions of rows ----------

  /** The printed lines, right-stripped, stand at `index`. */
  predicate At(rows: seq<string>, index: nat, lines: seq<string>) {
    && index + |lines| <= |rows|
    && forall i :: 0 <= i < |lines| ==> rows[index + i] == RStrip(lines[i])
  }

  /** The rows end here or go on at an indentation below `bound`. */
  predicate Stops(rows: seq<string>, index: nat, bound: nat) {
    index == |rows| || (index < |rows| && !Ignorable(rows[index]) && IndentOf(rows[index]) < bound)
  }

  lemma AtSplit(rows: seq<string>, index: nat, a: seq<string>, b: seq<string>)
    requires At(rows, index, a + b)
    ensures At(rows, index, a) && At(rows, index + |a|, b)
  {
    hide RStrip;
    forall i | 0 <= i < |a| ensures rows[index + i] == RStrip(a[i]) {
      assert (a + b)[i] == a[i];
    }
    forall i | 0 <= i < |b| ensures rows[index + |a| + i] == RStrip(b[i]) {
      assert (a + b)[|a| + i] == b[i];
      assert rows[index + (|a| + i)] == RStrip((a + b)[|a| + i]);
    }
  }

  lemma AtFirst(rows: seq<string>, index: nat, line: string, b: seq<string>)
    requires At(rows, index, [line] + b)
    ensures index + 1 + |b| <= |rows| && rows[index] == RStrip(line) && At(rows, index + 1, b)
  {
    hide RStrip;
    AtSplit(rows, index, [line], b);
    assert rows[index + 0] == RStrip([line][0]);
  }

  lemma SpacesBlank(level: nat)
    ensures Blank(Spaces(level))
  {}

  lemma NotIgnorable(level: nat, s: string)
    requires s != "" && !IsSpace(s[0]) && s[0] != '#'
    ensures !Ignorable(Spaces(level) + s)
  {
    hide IsSpace;
    SpacesBlank(level);
    LStripBlankPrefix(Spaces(level), s);
    LStripId(s);
    RStripProps(s);
  }

  /** A line that starts and ends with a non-space after its indentation. */
  predicate Solid(s: string) {
    s != "" && !IsSpace(s[0]) && !IsSpace(s[|s| - 1]) && s[0] != '#'
  }

  lemma SolidLine(level: nat, s: string)
    requires Solid(s)
    ensures RStrip(Spaces(level) + s) == Spaces(level) + s
    ensures IndentOf(Spaces(level) + s) == level && (Spaces(level) + s)[level..] == s
    ensures !Ignorable(Spaces(level) + s)
  {
    hide Ignorable, IndentOf, Spaces;
    assert IsSpace(' ');
    IndentOfSpaces(level, s);
    RStripId(Spaces(level) + s);
    NotIgnorable(level, s);
  }

  lemma TailFacts(v: Value)
    requires Wide(v)
    ensures Tail(v) == "" || (|Tail(v)| >= 2 && Tail(v)[0] == ' ' && Solid(Tail(v)[1..]))
    ensures Strip(Tail(v)) == (if Tail(v) == "" then "" else Tail(v)[1..])
    ensures NoBreaks(Tail(v))
  {
    hide Tail, Strip, IsSpace, Wide;
    TailSolid(v);
    var t := Tail(v);
    if t == "" {
      StripId("");
    } else {
      assert t == " " + t[1..];
      BehindSpace(t[1..]);
    }
  }

  lemma TailSolid(v: Value)
    requires Wide(v)
    ensures Tail(v) == "" || (|Tail(v)| >= 2 && Tail(v)[0] == ' ' && Solid(Tail(v)[1..]))
    ensures NoBreaks(Tail(v))
  {
    hide IsPlain, Quote, IntToString, IsSpace, Strip;
    assert !IsSpace('{') && !IsSpace('}') && !IsSpace('[') && !IsSpace(']') && !IsSpace('|') && !IsSpace('-') by {
      MarksAreNoSpace();
    }
    if IsScalar(v) && (v.Str? ==> !BlockForm(v.s)) {
      ScalarRoundTrip(v);
      assert Tail(v) == " " + DumpScalar(v);
    }
  }

  lemma MarksAreNoSpace()
    ensures !IsSpace('{') && !IsSpace('}') && !IsSpace('[') && !IsSpace(']') && !IsSpace('|') && !IsSpace('-')
  {}

  lemma BehindSpace(s: string)
    requires Solid(s)
    ensures Strip(" " + s) == s
  {
    LStripBlankPrefix(" ", s);
    StripId(s);
  }

  /** A field line survives right-stripping, and its parts can be recovered. */
  lemma FieldLine(e: Entry)
    requires KeyOk(e.key) && Wide(e.value)
    ensures Solid(FieldText(e)) && FieldText(e)[0] == DumpText(e.key)[0] && NoBreaks(FieldText(e))
    ensures !("-" <= FieldText(e)) && Find(FieldText(e), ':') == |DumpText(e.key)| < |FieldText(e)|
    ensures FieldText(e)[..|DumpText(e.key)|] == DumpText(e.key)
    ensures FieldText(e)[|DumpText(e.key)| + 1..] == Tail(e.value)
  {
    hide DumpText, Tail, KeyOk, Wide, IsSpace, IsPlain;
    var t := DumpText(e.key);
    KeyFacts(e.key);
    TailFacts(e.value);
    FindIn(t, ':', Tail(e.value));
    assert !IsSpace(':') by { ColonIsNoSpace(); }
  }

  lemma ColonIsNoSpace()
    ensures !IsSpace(':')
  {}

  // ---------- indentation of nested lines ----------

  /** Lines that are not blank stand at the level or deeper. */
  predicate Deep(lines: seq<string>, level: nat) {
    forall i :: 0 <= i < |lines| ==>
        NoBreaks(lines[i]) && (!Blank(lines[i]) ==> IndentOf(RStrip(lines[i])) >= 2 * level)
  }

  lemma DeepConcat(a: seq<string>, b: seq<string>, level: nat)
    requires Deep(a, level) && Deep(b, level)
    ensures Deep(a + b, level)
  {}

  lemma DeepMore(a: seq<string>, level: nat, more: nat)
    requires Deep(a, more) && level <= more
    ensures Deep(a, level)
  {}

  lemma DeepSolid(level: nat, s: string)
    requires Solid(s) && NoBreaks(s)
    ensures Deep([Pad(level) + s], level)
  {
    hide RStrip, Spaces, IndentOf, IsSpace;
    SolidLine(2 * level, s);
    var line := Pad(level) + s;
    assert line[|line| - 1] == s[|s| - 1];
    PadNoBreaks(level, s);
  }

  lemma PadNoBreaks(level: nat, s: string)
    requires NoBreaks(s)
    ensures NoBreaks(Pad(level) + s)
  {}

  lemma DeepIndented(parts: seq<string>, level: nat)
    requires forall i :: 0 <= i < |parts| ==> NoBreaks(parts[i])
    ensures Deep(Indented(parts, level), level)
  {
    hide RStrip, Blank, Spaces, IndentOf, Indented, NoBreaks;
    forall i | 0 <= i < |parts|
      ensures var line := Indented(parts, level)[i];
        NoBreaks(line) && (!Blank(line) ==> IndentOf(RStrip(line)) >= 2 * level)
    {
      PadNoBreaks(level, parts[i]);
      BlankPadded(2 * level, parts[i]);
      if !Blank(parts[i]) {
        RStripPrefix(Pad(level), parts[i]);
        IndentOfAtLeast(2 * level, RStrip(parts[i]));
      }
    }
  }

  lemma BlankPadded(n: nat, s: string)
    ensures Blank(Spaces(n) + s) <==> Blank(s)
  {
    if Blank(Spaces(n) + s) {
      forall i | 0 <= i < |s| ensures IsSpace(s[i]) { assert (Spaces(n) + s)[n + i] == s[i]; }
    }
  }

  lemma BlockParts(s: string)
    requires StrOk(s)
    ensures forall i :: 0 <= i < |Split(BlockBody(s), '\n')| ==> NoBreaks(Split(BlockBody(s), '\n')[i])
  {
    JoinSplit(BlockBody(s), '\n');
    assert forall c :: c in BlockBody(s) ==> c in s;
  }

  lemma {:induction false} DeepBelow(v: Value, level: nat)
    requires Wide(v)
    ensures Deep(Below(v, level), level)
    decreases v, 0
  {
    hide Deep, DistinctKeys, IsPlain, DumpEntries, DumpItems, Indented, Split, Blank, Tail;
    match v
    case Map(entries) => DeepEntries(entries, level);
    case List(items) => DeepItems(items, level);
    case Str(s) =>
      if BlockForm(s) {
        BlockParts(s);
        DeepIndented(Split(BlockBody(s), '\n'), level);
      } else {
        DeepNone(level);
      }
    case _ => DeepNone(level);
  }

  lemma DeepNone(level: nat)
    ensures Deep([], level)
  {}

  lemma {:induction false} DeepEntries(entries: seq<Entry>, level: nat)
    requires WideFields(entries)
    ensures Deep(DumpEntries(entries, level), level)
    decreases entries
  {
    hide Deep, Below, FieldText, Solid, Wide, KeyOk;
    if |entries| == 0 {
      DeepNone(level);
    } else {
      FieldLine(entries[0]);
      DeepSolid(level, FieldText(entries[0]));
      DeepBelow(entries[0].value, level + 1);
      DeepMore(Below(entries[0].value, level + 1), level, level + 1);
      DeepEntries(entries[1..], level);
      DeepConcat([Pad(level) + FieldText(entries[0])], Below(entries[0].value, level + 1), level);
      DeepConcat([Pad(level) + FieldText(entries[0])] + Below(entries[0].value, level + 1),
                 DumpEntries(entries[1..], level), level);
    }
  }

  lemma {:induction false} DeepItems(items: seq<Value>, level: nat)
    requires forall i :: 0 <= i < |items| ==> Wide(items[i])
    ensures Deep(DumpItems(items, level), level)
    decreases items
  {
    hide Deep, DumpItem, Wide;
    if |items| == 0 {
      DeepNone(level);
    } else {
      DeepItem(items[0], level);
      DeepItems(items[1..], level);
      DeepConcat(DumpItem(items[0], level), DumpItems(items[1..], level), level);
    }
  }

  /** The first line of a list item without its indentation. */
  function ItemText(v: Value): string {
    match v
    case Map(entries) => if |entries| == 0 then "- {}" else "- " + FieldText(entries[0])
    case List(items) => "-"
    case _ => "-" + Tail(v)
  }

  /** The lines of a list item after its first. */
  function ItemBelow(v: Value, level: nat): seq<string> {
    match v
    case Map(entries) => if |entries| == 0 then [] else DumpEntries(entries, level + 1)[1..]
    case List(items) => DumpNode(v, level + 1)
    case _ => Below(v, level + 1)
  }

  lemma {:induction false} DashTail(entries: seq<Entry>, level: nat)
    ensures DumpDashFields(entries, level, false) == DumpEntries(entries, level + 1)
    decreases entries
  {
    hide Below, FieldText;
    if |entries| > 0 {
      DashTail(entries[1..], level);
    }
  }

  /** A dictionary in a list is printed like one a level deeper, with a dash in its first line. */
  lemma ItemShape(v: Value, level: nat)
    ensures DumpItem(v, level) == [Pad(level) + ItemText(v)] + ItemBelow(v, level)
  {
    hide DumpNode, Below, FieldText, Tail, Spaces;
    match v {
      case Map(entries) =>
        if |entries| > 0 {
          DashTail(entries[1..], level);
          assert Pad(level) + "- " + FieldText(entries[0]) == Pad(level) + ItemText(v);
        }
      case List(items) =>
      case _ =>
        assert Pad(level) + "-" + Tail(v) == Pad(level) + ItemText(v);
    }
  }

  lemma EntriesFirst(entries: seq<Entry>, level: nat)
    requires |entries| > 0
    ensures DumpEntries(entries, level) == [Pad(level) + FieldText(entries[0])] + DumpEntries(entries, level)[1..]
    ensures DumpEntries(entries, level)[1..] == Below(entries[0].value, level + 1) + DumpEntries(entries[1..], level)
  {
    hide Below, FieldText, Spaces;
  }

  /** The first row of a list item starts with a dash at the level of the list. */
  lemma ItemLine(v: Value)
    requires Wide(v)
    ensures Solid(ItemText(v)) && "-" <= ItemText(v) && NoBreaks(ItemText(v))
  {
    hide FieldText, Tail, Find, DumpText, KeyOk, Wide, IsSpace;
    assert !IsSpace('-') && !IsSpace('}') by { DashIsNoSpace(); }
    match v
    case Map(entries) =>
      if |entries| > 0 {
        assert KeyOk(entries[0].key) && Wide(entries[0].value) by { FirstWide(v); }
        FieldLine(entries[0]);
      }
    case List(items) =>
    case _ => TailFacts(v);
  }

  lemma DashIsNoSpace()
    ensures !IsSpace('-') && !IsSpace('}')
  {}

  lemma FirstWide(v: Value)
    requires Wide(v) && v.Map? && |v.entries| > 0
    ensures KeyOk(v.entries[0].key) && Wide(v.entries[0].value)
  {
    hide KeyOk;
  }

  lemma {:induction false} DeepItem(v: Value, level: nat)
    requires Wide(v)
    ensures Deep(DumpItem(v, level), level)
    decreases v, 1
  {
    hide Deep, DumpItem, ItemText, DumpEntries, Below, Solid, DumpNode, KeyOk, IsPlain, StrOk;
    ItemShape(v, level);
    ItemLine(v);
    DeepSolid(level, ItemText(v));
    match v {
      case Map(entries) =>
        if |entries| == 0 {
          DeepNone(level);
        } else {
          DeepEntries(entries, level + 1);
          DeepTail(DumpEntries(entries, level + 1), level + 1);
          DeepMore(ItemBelow(v, level), level, level + 1);
        }
      case List(items) =>
        DeepNode(v, level + 1);
        DeepMore(ItemBelow(v, level), level, level + 1);
      case _ =>
        DeepBelow(v, level + 1);
        DeepMore(ItemBelow(v, level), level, level + 1);
    }
    DeepConcat([Pad(level) + ItemText(v)], ItemBelow(v, level), level);
  }

  lemma DeepTail(lines: seq<string>, level: nat)
    requires Deep(lines, level) && |lines| > 0
    ensures Deep(lines[1..], level)
  {}

  lemma {:induction false} DeepNode(v: Value, level: nat)
    requires Wide(v) && v.List?
    ensures Deep(DumpNode(v, level), level)
    decreases v, 0
  {
    hide Deep, DumpItems;
    if |v.items| == 0 {
      DeepSolid(level, "[]");
    } else {
      DeepItems(v.items, level);
    }
  }

  // ---------- the block that ends a value ----------

  /** The number of lines of the block string that ends the value, 0 if none does. */
  function TipParts(v: Value): nat
    decreases v
  {
    match v
    case Str(s) => if BlockForm(s) then |Split(BlockBody(s), '\n')| else 0
    case List(items) => if |items| == 0 then 0 else TipParts(items[|items| - 1])
    case Map(entries) => if |entries| == 0 then 0 else TipParts(entries[|entries| - 1].value)
    case _ => 0
  }

  /** The line before the last t is neither blank nor a comment. */
  predicate HeadAt(lines: seq<string>, t: nat) {
    t < |lines| && !Ignorable(lines[|lines| - 1 - t])
  }

  lemma HeadBehind(a: seq<string>, b: seq<string>, t: nat)
    requires |a| > 0 && !Ignorable(a[|a| - 1]) && (|b| == t || HeadAt(b, t))
    ensures HeadAt(a + b, t)
  {
    hide Ignorable;
  }

  lemma HeadFurther(a: seq<string>, b: seq<string>, t: nat)
    requires HeadAt(b, t)
    ensures HeadAt(a + b, t)
  {
    hide Ignorable;
  }

  /** What stands before the lines of the last block is a line with text. */
  lemma {:induction false} BelowHead(v: Value, level: nat)
    requires Wide(v)
    ensures |Below(v, level)| == TipParts(v) || HeadAt(Below(v, level), TipParts(v))
    decreases v, 0
  {
    hide DistinctKeys, IsPlain, DumpEntries, DumpItems, Split, HeadAt, KeyOk, StrOk;
    match v
    case Map(entries) => if |entries| > 0 { EntriesHead(entries, level); } else { NoEntries(level); }
    case List(items) => if |items| > 0 { ItemsHead(items, level); } else { NoItems(level); }
    case _ =>
  }

  lemma NoEntries(level: nat)
    ensures DumpEntries([], level) == []
  {}

  lemma NoItems(level: nat)
    ensures DumpItems([], level) == []
  {}

  lemma TipOfOne(entries: seq<Entry>)
    requires |entries| > 0
    ensures TipParts(Map(entries)) == if |entries| == 1 then TipParts(entries[0].value) else TipParts(Map(entries[1..]))
  {}

  lemma {:induction false} EntriesHead(entries: seq<Entry>, level: nat)
    requires WideFields(entries) && |entries| > 0
    ensures HeadAt(DumpEntries(entries, level), TipParts(Map(entries)))
    decreases entries
  {
    hide Below, FieldText, Solid, Wide, KeyOk, HeadAt, Ignorable, Spaces, TipParts, DumpEntries;
    var e := entries[0];
    var line, below, rest := Pad(level) + FieldText(e), Below(e.value, level + 1), DumpEntries(entries[1..], level);
    EntriesFirst(entries, level);
    TipOfOne(entries);
    assert DumpEntries(entries, level) == [line] + below + rest;
    if |entries| == 1 {
      FieldLine(e);
      SolidLine(2 * level, FieldText(e));
      BelowHead(e.value, level + 1);
      HeadBehind([line], below, TipParts(e.value));
      NoEntries(level);
      assert entries[1..] == [];
      assert DumpEntries(entries, level) == [line] + below;
    } else {
      EntriesHead(entries[1..], level);
      HeadFurther([line] + below, rest, TipParts(Map(entries)));
    }
  }

  lemma {:induction false} ItemsHead(items: seq<Value>, level: nat)
    requires |items| > 0 && forall i :: 0 <= i < |items| ==> Wide(items[i])
    ensures HeadAt(DumpItems(items, level), TipParts(List(items)))
    decreases items
  {
    hide DumpItem, Wide, HeadAt;
    if |items| == 1 {
      ItemHead(items[0], level);
      assert DumpItems(items[1..], level) == [];
      assert DumpItems(items, level) == DumpItem(items[0], level);
    } else {
      ItemsHead(items[1..], level);
      assert items[1..][|items| - 2] == items[|items| - 1];
      HeadFurther(DumpItem(items[0], level), DumpItems(items[1..], level), TipParts(List(items)));
    }
  }

  lemma {:induction false} ItemHead(v: Value, level: nat)
    requires Wide(v)
    ensures HeadAt(DumpItem(v, level), TipParts(v))
    decreases v, 1
  {
    hide DumpItem, ItemText, DumpEntries, Below, Solid, DumpNode, KeyOk, IsPlain, StrOk, HeadAt, Ignorable, Spaces;
    ItemShape(v, level);
    ItemLine(v);
    var line := Pad(level) + ItemText(v);
    SolidLine(2 * level, ItemText(v));
    match v {
      case Map(entries) =>
        if |entries| > 0 {
          EntriesHead(entries, level + 1);
          OtherFirst(DumpEntries(entries, level + 1), line, TipParts(v));
        } else {
          HeadBehind([line], [], 0);
        }
      case List(items) =>
        NodeHead(v, level + 1);
        HeadFurther([line], DumpNode(v, level + 1), TipParts(v));
      case _ =>
        BelowHead(v, level + 1);
        HeadBehind([line], Below(v, level + 1), TipParts(v));
    }
  }

  lemma OtherFirst(lines: seq<string>, line: string, t: nat)
    requires HeadAt(lines, t) && !Ignorable(line)
    ensures HeadAt([line] + lines[1..], t)
  {
    hide Ignorable;
  }

  lemma {:induction false} NodeHead(v: Value, level: nat)
    requires Wide(v) && !IsScalar(v)
    ensures HeadAt(DumpNode(v, level), TipParts(v))
    decreases v, 0
  {
    hide DumpEntries, DumpItems, HeadAt, Ignorable, DistinctKeys, IsPlain, KeyOk, Spaces;
    if v == Map([]) || v == List([]) {
      var s := if v.Map? then "{}" else "[]";
      SolidLine(2 * level, s);
      HeadBehind([Pad(level) + s], [], 0);
      assert DumpNode(v, level) == [Pad(level) + s] + [];
    } else if v.Map? {
      EntriesHead(v.entries, level);
    } else {
      ItemsHead(v.items, level);
    }
  }

  /** Lines at the end that are all blank or comments belong to the last block. */
  lemma EndIsTip(lines: seq<string>, t: nat, d: nat)
    requires HeadAt(lines, t) && d <= |lines| && forall i :: |lines| - d <= i < |lines| ==> Ignorable(lines[i])
    ensures d <= t
  {
    hide Ignorable;
  }

  // ---------- the same lines further in ----------

  /** The lines of b are those of a behind n more spaces. */
  predicate Lifted(a: seq<string>, b: seq<string>, n: nat) {
    |a| == |b| && forall i :: 0 <= i < |a| ==> b[i] == Spaces(n) + a[i]
  }

  lemma LiftConcat(a: seq<string>, b: seq<string>, c: seq<string>, d: seq<string>, n: nat)
    requires Lifted(a, b, n) && Lifted(c, d, n)
    ensures Lifted(a + c, b + d, n)
  {
    hide Spaces;
  }

  lemma LiftLine(level: nat, more: nat, s: string)
    ensures Lifted([Pad(level) + s], [Pad(level + more) + s], 2 * more)
  {
    assert Pad(level + more) == Spaces(2 * more) + Pad(level);
    assert Pad(level + more) + s == Spaces(2 * more) + (Pad(level) + s);
  }

  lemma LiftIndented(parts: seq<string>, level: nat, more: nat)
    ensures Lifted(Indented(parts, level), Indented(parts, level + more), 2 * more)
  {
    hide Spaces;
    forall i | 0 <= i < |parts|
      ensures Indented(parts, level + more)[i] == Spaces(2 * more) + Indented(parts, level)[i]
    {
      LiftLine(level, more, parts[i]);
      assert [Pad(level + more) + parts[i]][0] == Spaces(2 * more) + [Pad(level) + parts[i]][0];
    }
  }

  lemma {:induction false} LiftBelow(v: Value, level: nat, more: nat)
    ensures Lifted(Below(v, level), Below(v, level + more), 2 * more)
    decreases v, 0
  {
    hide DumpEntries, DumpItems, Indented, Split, Lifted, Spaces;
    match v
    case Map(entries) => LiftEntries(entries, level, more);
    case List(items) => LiftItems(items, level, more);
    case Str(s) => LiftIndented(Split(BlockBody(s), '\n'), level, more); LiftNone(2 * more);
    case _ => LiftNone(2 * more);
  }

  lemma LiftNone(n: nat)
    ensures Lifted([], [], n)
  {}

  lemma {:induction false} LiftEntries(entries: seq<Entry>, level: nat, more: nat)
    ensures Lifted(DumpEntries(entries, level), DumpEntries(entries, level + more), 2 * more)
    decreases entries
  {
    hide Below, FieldText, Lifted, Spaces;
    if |entries| == 0 {
      LiftNone(2 * more);
    } else {
      var e := entries[0];
      LiftLine(level, more, FieldText(e));
      LiftBelow(e.value, level + 1, more);
      LiftEntries(entries[1..], level, more);
      LiftConcat([Pad(level) + FieldText(e)], [Pad(level + more) + FieldText(e)],
                 Below(e.value, level + 1), Below(e.value, level + 1 + more), 2 * more);
      LiftConcat([Pad(level) + FieldText(e)] + Below(e.value, level + 1),
                 [Pad(level + more) + FieldText(e)] + Below(e.value, level + 1 + more),
                 DumpEntries(entries[1..], level), DumpEntries(entries[1..], level + more), 2 * more);
    }
  }

  lemma {:induction false} LiftItems(items: seq<Value>, level: nat, more: nat)
    ensures Lifted(DumpItems(items, level), DumpItems(items, level + more), 2 * more)
    decreases items
  {
    hide DumpItem, Lifted;
    if |items| == 0 {
      LiftNone(2 * more);
    } else {
      LiftItem(items[0], level, more);
      LiftItems(items[1..], level, more);
      LiftConcat(DumpItem(items[0], level), DumpItem(items[0], level + more),
                 DumpItems(items[1..], level), DumpItems(items[1..], level + more), 2 * more);
    }
  }

  lemma {:induction false} LiftItem(v: Value, level: nat, more: nat)
    ensures Lifted(DumpItem(v, level), DumpItem(v, level + more), 2 * more)
    decreases v, 1
  {
    hide DumpItem, ItemText, DumpEntries, DumpItems, Below, Lifted, Spaces;
    ItemShape(v, level);
    ItemShape(v, level + more);
    LiftLine(level, more, ItemText(v));
    match v {
      case Map(entries) =>
        if |entries| > 0 {
          LiftEntries(entries, level + 1, more);
          LiftTail(DumpEntries(entries, level + 1), DumpEntries(entries, level + 1 + more), 2 * more);
        } else {
          LiftNone(2 * more);
        }
      case List(items) =>
        if |items| > 0 { LiftItems(items, level + 1, more); } else { LiftLine(level + 1, more, "[]"); }
      case _ => LiftBelow(v, level + 1, more);
    }
    LiftConcat([Pad(level) + ItemText(v)], [Pad(level + more) + ItemText(v)], ItemBelow(v, level),
               ItemBelow(v, level + more), 2 * more);
  }

  lemma LiftTail(a: seq<string>, b: seq<string>, n: nat)
    requires Lifted(a, b, n) && |a| > 0
    ensures Lifted(a[1..], b[1..], n)
  {
    hide Spaces;
  }

  lemma IgnorablePadded(n: nat, s: string)
    ensures Ignorable(Spaces(n) + s) <==> Ignorable(s)
  {
    hide Blank, IsSpace;
    SpacesBlank(n);
    LStripBlankPrefix(Spaces(n), s);
  }

  /** Blank lines and comments do not depend on the indentation. */
  lemma {:induction false} LiftedGap(a: seq<string>, b: seq<string>, n: nat)
    requires Lifted(a, b, n)
    ensures Gap(a) == Gap(b)
    decreases |a|
  {
    hide Spaces, Blank;
    if |a| > 0 {
      BlankPadded(n, a[0]);
      assert b[0] == Spaces(n) + a[0];
      LiftTail(a, b, n);
      LiftedGap(a[1..], b[1..], n);
    }
  }

  lemma LiftedBroken(a: seq<string>, b: seq<string>, n: nat)
    requires Lifted(a, b, n)
    ensures Broken(a) <==> Broken(b)
  {
    hide Spaces, Blank, Ignorable;
    forall i | 0 <= i < |a| ensures (Blank(a[i]) <==> Blank(b[i])) && (Ignorable(a[i]) <==> Ignorable(b[i])) {
      assert b[i] == Spaces(n) + a[i];
      BlankPadded(n, a[i]);
      IgnorablePadded(n, a[i]);
    }
  }

  lemma OwnLinesAt(entries: seq<Entry>, level: nat)
    ensures Gap(DumpEntries(entries, level)) == Gap(OwnLines(entries))
    ensures Broken(DumpEntries(entries, level)) <==> Broken(OwnLines(entries))
  {
    hide DumpEntries, Lifted, Gap, Broken;
    LiftEntries(entries, 0, level);
    LiftedGap(OwnLines(entries), DumpEntries(entries, level), 2 * level);
    LiftedBroken(OwnLines(entries), DumpEntries(entries, level), 2 * level);
  }

  /** Where lines are not broken, those from the first blank one on are all blank or comments. */
  lemma GapIsIgnorable(lines: seq<string>)
    requires !Broken(lines)
    ensures forall i :: |lines| - Gap(lines) <= i < |lines| ==> Ignorable(lines[i])
  {
    hide Ignorable, Blank;
    var p := |lines| - Gap(lines);
    if p < |lines| {
      BlankIsIgnorable(lines[p]);
      forall i | p <= i < |lines| ensures Ignorable(lines[i]) {
        assert p < i ==> !(Blank(lines[p]) && !Ignorable(lines[i]));
      }
    }
  }

  lemma BlankIsIgnorable(s: string)
    requires Blank(s)
    ensures Ignorable(s)
  {
    StripProps(s);
  }
}
