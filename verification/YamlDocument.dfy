/** Whole documents: when `parse_yaml(dump_yaml(v))` is v. */
module YamlDocument {
  import opened Text
  import opened Yaml
  import opened YamlScalars
  import opened YamlShape
  import opened YamlRoundTrip
  import opened YamlLost
  import opened YamlReads

  /** No "~" and no block line with trailing spaces, anywhere. */
  predicate Faithful(v: Value)
    decreases v
  {
    match v
    case Str(s) => s != "~" && (BlockForm(s) ==> NoTrailing(Split(BlockBody(s), '\n')))
    case List(items) => forall i :: 0 <= i < |items| ==> Faithful(items[i])
    case Map(entries) => forall i :: 0 <= i < |entries| ==> Faithful(entries[i].value)
    case _ => true
  }

  predicate NoTrailing(lines: seq<string>) {
    forall i :: 0 <= i < |lines| ==> |lines[i]| > 0 ==> !IsSpace(lines[i][|lines[i]| - 1])
  }

  /** The block that ends the value is a string of one newline: nothing is left of it to lose. */
  predicate TipIsNewline(v: Value)
    decreases v
  {
    match v
    case Str(s) => s == "\n"
    case List(items) => |items| > 0 && TipIsNewline(items[|items| - 1])
    case Map(entries) => |entries| > 0 && TipIsNewline(entries[|entries| - 1].value)
    case _ => false
  }

  /** No line of a dictionary is blank, or only its last one, of a string of one newline. */
  predicate TightItem(entries: seq<Entry>) {
    var g := Gap(OwnLines(entries));
    g == 0 || (g == 1 && TipIsNewline(Map(entries)))
  }

  /** Every dictionary inside a list is tight. */
  predicate Tight(v: Value)
    decreases v, 0
  {
    match v
    case List(items) => forall i :: 0 <= i < |items| ==> TightIn(items[i])
    case Map(entries) => forall i :: 0 <= i < |entries| ==> Tight(entries[i].value)
    case _ => true
  }

  predicate TightIn(v: Value)
    decreases v, 1
  {
    (v.Map? ==> TightItem(v.entries)) && Tight(v)
  }

  /** The number of blank lines at the end. */
  function EndBlanks(lines: seq<string>): (d: nat)
    ensures d <= |lines| && forall i :: |lines| - d <= i < |lines| ==> Blank(lines[i])
  {
    if |lines| > 0 && Blank(lines[|lines| - 1]) then 1 + EndBlanks(lines[..|lines| - 1]) else 0
  }

  /** The document does not end in a blank line, unless it is that of a string of one newline. */
  predicate TightEnd(v: Value) {
    EndBlanks(DumpNode(v, 0)) == 0 || TipIsNewline(v)
  }

  // ---------- from text to rows ----------

  lemma {:induction false} NormalizeNothing(s: string)
    requires '\r' !in s
    ensures NormalizeNewlines(s) == s
  {
    if |s| > 0 {
      assert s[0] in s;
      assert forall c :: c in s[1..] ==> c in s;
      NormalizeNothing(s[1..]);
      assert [s[0]] + s[1..] == s;
    }
  }

  lemma {:induction false} JoinNoReturn(lines: seq<string>)
    requires forall i :: 0 <= i < |lines| ==> NoBreaks(lines[i])
    ensures '\r' !in Join(lines, '\n')
  {
    if |lines| > 1 { JoinNoReturn(lines[1..]); }
  }

  lemma {:induction false} JoinEnd(lines: seq<string>)
    requires |lines| > 0
    ensures Join(lines, '\n') + "\n" == Join(lines + [""], '\n')
  {
    if |lines| == 1 {
      assert (lines + [""])[1..] == [""];
      assert Join([""], '\n') == "";
    } else {
      JoinEnd(lines[1..]);
      assert (lines + [""])[1..] == lines[1..] + [""];
      assert Join(lines, '\n') + "\n" == lines[0] + "\n" + (Join(lines[1..], '\n') + "\n");
    }
  }

  /** The rows of a printed document: blank lines at its end are gone. */
  lemma RowsOfLines(lines: seq<string>)
    requires |lines| > 0 && Deep(lines, 0)
    ensures Rows(Join(lines, '\n') + "\n") == RStripAll(lines[..|lines| - EndBlanks(lines)])
  {
    hide Deep, NoBreaks, Split, Join, NormalizeNewlines, EndBlanks, RStripAll, DropBlankTail;
    var text := Join(lines, '\n') + "\n";
    DeepBreaks(lines);
    JoinNoReturn(lines);
    NormalizeNothing(text);
    JoinEnd(lines);
    SplitJoin(lines + [""], '\n');
    DropsEnd(lines + [""]);
    EndBlanksAppend(lines);
    assert (lines + [""])[..|lines| - EndBlanks(lines)] == lines[..|lines| - EndBlanks(lines)];
  }

  lemma DeepBreaks(lines: seq<string>)
    requires Deep(lines, 0)
    ensures forall i :: 0 <= i < |lines| ==> NoBreaks(lines[i])
    ensures forall i :: 0 <= i < |lines + [""]| ==> '\n' !in (lines + [""])[i]
  {
    hide IndentOf, RStrip, Blank;
  }

  lemma EndBlanksAppend(lines: seq<string>)
    ensures EndBlanks(lines + [""]) == 1 + EndBlanks(lines)
  {
    assert (lines + [""])[..|lines|] == lines;
  }

  lemma {:induction false} DropsEnd(lines: seq<string>)
    ensures DropBlankTail(RStripAll(lines)) == RStripAll(lines[..|lines| - EndBlanks(lines)])
  {
    hide RStrip, Strip, Blank;
    if |lines| > 0 {
      var init := lines[..|lines| - 1];
      RStripProps(lines[|lines| - 1]);
      StripProps(RStrip(lines[|lines| - 1]));
      BlankAfter(lines[|lines| - 1]);
      assert RStripAll(lines)[..|lines| - 1] == RStripAll(init);
      if Blank(lines[|lines| - 1]) {
        DropsEnd(init);
        assert init[..|init| - EndBlanks(init)] == lines[..|lines| - EndBlanks(lines)];
      } else {
        assert lines[..|lines| - 0] == lines;
      }
    }
  }

  lemma BlankAfter(s: string)
    ensures Blank(RStrip(s)) <==> Blank(s)
  {
    RStripProps(s);
    RStripProps(RStrip(s));
  }

  lemma NonBlankOne(line: string)
    requires !Blank(line)
    ensures EndBlanks([line]) == 0 && [line][..1] == [line]
  {}

  // ---------- dictionaries and lists ----------

  lemma NodeDeep(v: Value)
    requires Wide(v) && !IsScalar(v)
    ensures Deep(DumpNode(v, 0), 0)
  {
    hide Deep, DumpEntries, DumpItems, DistinctKeys, IsPlain, KeyOk;
    if v == Map([]) {
      DeepSolid(0, "{}");
    } else if v.Map? {
      DeepEntries(v.entries, 0);
    } else {
      DeepNode(v, 0);
    }
  }

  /** `parse_yaml(dump_yaml(v))`; an error also where the printer refuses an empty key. */
  function ThereAndBack(v: Value): Result<Value> {
    if Dumpable(v) then ParseYaml(DumpYaml(v)) else Err(EmptyKey)
  }

  /**
   Printing and reading back a dictionary or list succeeds exactly where the printer accepts it and no
   dictionary inside a list is broken, and gives what is left when the blank lines at the end are missing.
   */
  lemma ParseOfDump(v: Value)
    requires InClass(v) && !IsScalar(v)
    ensures ThereAndBack(v).Ok? <==> Dumpable(v) && Unbroken(v)
    ensures Dumpable(v) && Unbroken(v) ==> ThereAndBack(v) == Ok(Back(v, EndBlanks(DumpNode(v, 0))))
  {
    hide ParseYaml, DumpYaml, DumpNode, InClass, Back, Unbroken, EndBlanks, Dumpable;
    ParseOfText(v);
  }

  /** The same of the text alone: reading it fails exactly where a dictionary inside a list is broken. */
  lemma ParseOfText(v: Value)
    requires InClass(v) && !IsScalar(v)
    ensures ParseYaml(DumpYaml(v)).Ok? <==> Unbroken(v)
    ensures Unbroken(v) ==> ParseYaml(DumpYaml(v)) == Ok(Back(v, EndBlanks(DumpNode(v, 0))))
  {
    hide ParseNode, DumpNode, Wide, FirstPlain, Back, Rows, Ignorable, IndentOf, Join, RStrip, Deep, Unbroken, Blank;
    hide EndBlanks;
    var lines := DumpNode(v, 0);
    var d := EndBlanks(lines);
    NodeDeep(v);
    RowsOfLines(lines);
    var rows := RStripAll(lines[..|lines| - d]);
    forall i | |lines| - d <= i < |lines| ensures Ignorable(lines[i]) { BlankIsIgnorable(lines[i]); }
    assert Stands(rows, 0, lines, d, 0);
    NodeParse(v, 0, rows, 0, 0, d);
  }

  lemma {:induction false} JoinInjective(a: seq<string>, b: seq<string>)
    requires |a| > 0 && |b| > 0
    requires forall i :: 0 <= i < |a| ==> '\n' !in a[i]
    requires forall i :: 0 <= i < |b| ==> '\n' !in b[i]
    requires Join(a, '\n') == Join(b, '\n')
    ensures a == b
  {
    SplitJoin(a, '\n');
    SplitJoin(b, '\n');
  }

  /**
   A block comes back as it was exactly when its lines have no trailing spaces and none is missing, or it is one
   newline.
   */
  lemma CutBlockIff(s: string, d: nat)
    requires BlockForm(s) && d <= |Split(BlockBody(s), '\n')|
    ensures CutBlock(s, d) == s <==> NoTrailing(Split(BlockBody(s), '\n')) && (d == 0 || s == "\n")
  {
    hide IsSpace, Join, Split, RStrip;
    var parts := Split(BlockBody(s), '\n');
    var end := if EndsWithChar(s, '\n') then "\n" else "";
    var kept := parts[..|parts| - d];
    JoinSplit(BlockBody(s), '\n');
    assert s == Join(parts, '\n') + end;
    if NoTrailing(parts) && d == 0 {
      forall i | 0 <= i < |parts| ensures RStrip(parts[i]) == parts[i] { RStripId(parts[i]); }
      assert RStripAll(kept) == parts;
    }
    if s == "\n" {
      NewlineLines();
      OneNewline(d);
    }
    if CutBlock(s, d) == s {
      assert Join(RStripAll(kept), '\n') == Join(parts, '\n') by {
        var j, k := Join(RStripAll(kept), '\n'), Join(parts, '\n');
        assert j == (j + end)[..|s| - |end|] && k == (k + end)[..|s| - |end|];
      }
      if d == |parts| {
        NothingKept(s);
      } else {
        SameLines(parts, d);
      }
    }
  }

  lemma NewlineLines()
    ensures Split(BlockBody("\n"), '\n') == [""] && NoTrailing([""])
  {
    assert BlockBody("\n") == "";
  }

  lemma OneNewline(d: nat)
    requires d <= 1
    ensures CutBlock("\n", d) == "\n"
  {
    NewlineLines();
    assert RStripAll([""]) == [""];
  }

  lemma NothingKept(s: string)
    requires BlockForm(s) && Join(RStripAll([]), '\n') == BlockBody(s)
    ensures s == "\n" && NoTrailing(Split(BlockBody(s), '\n'))
  {
    assert BlockBody(s) == "";
    assert s == "\n" by {
      if s != "" { assert EndsWithChar(s, '\n') && s == s[..|s| - 1] + [s[|s| - 1]]; }
    }
  }

  /** Lines that join to the same text are the same lines. */
  lemma SameLines(parts: seq<string>, d: nat)
    requires d < |parts| && (forall i :: 0 <= i < |parts| ==> '\n' !in parts[i])
    requires Join(RStripAll(parts[..|parts| - d]), '\n') == Join(parts, '\n')
    ensures d == 0 && NoTrailing(parts)
  {
    hide IsSpace, Join, RStrip;
    var stripped := RStripAll(parts[..|parts| - d]);
    forall i | 0 <= i < |stripped| ensures '\n' !in stripped[i] { RStripProps(parts[i]); }
    JoinInjective(stripped, parts);
    forall i | 0 <= i < |parts| ensures |parts[i]| > 0 ==> !IsSpace(parts[i][|parts[i]| - 1]) {
      RStripProps(parts[i]);
      assert stripped[i] == parts[i];
    }
  }

  lemma NewlineParts(v: Value)
    requires TipIsNewline(v)
    ensures TipParts(v) == 1
  {
    assert BlockBody("\n") == "";
  }

  /** An unbroken dictionary loses at its first blank line no more than its last block. */
  lemma GapIsTip(entries: seq<Entry>)
    requires FieldsOk(entries) && !Broken(OwnLines(entries))
    ensures Gap(OwnLines(entries)) <= TipParts(Map(entries))
  {
    hide DumpEntries, KeyOk, Wide, FirstPlain, HeadAt, Broken, Gap;
    if |entries| > 0 {
      EntriesHead(entries, 0);
      GapIsIgnorable(OwnLines(entries));
      EndIsTip(OwnLines(entries), TipParts(Map(entries)), Gap(OwnLines(entries)));
    } else {
      NoEntries(0);
      assert entries == [];
    }
  }

  lemma TightIsUnbroken(entries: seq<Entry>)
    requires TightItem(entries)
    ensures !Broken(OwnLines(entries))
  {
    hide DumpEntries, TipIsNewline, Blank, Ignorable;
  }

  lemma {:induction false} TightUnbroken(v: Value)
    requires Tight(v)
    ensures Unbroken(v)
    decreases v
  {
    hide TightItem, Broken, OwnLines;
    match v
    case List(items) =>
      forall i | 0 <= i < |items| ensures UnbrokenItem(items[i]) {
        assert TightIn(items[i]);
        TightUnbroken(items[i]);
        if items[i].Map? { TightIsUnbroken(items[i].entries); }
      }
    case Map(entries) =>
      forall i | 0 <= i < |entries| ensures Unbroken(entries[i].value) { TightUnbroken(entries[i].value); }
    case _ =>
  }

  /**
   An unbroken value that loses d lines at its end is itself exactly when it has no "~" and no trailing
   spaces, dictionaries inside lists are tight, and nothing is lost or only a string of one newline.
   */
  lemma {:induction false} BackIff(v: Value, d: nat)
    requires InClass(v) && Unbroken(v) && d <= TipParts(v)
    ensures Back(v, d) == v <==> Faithful(v) && Tight(v) && (d == 0 || TipIsNewline(v))
    decreases v, 0
  {
    hide CutBlock, NoTrailing, BlockForm, BlockBody, Split, DistinctKeys, IsPlain, KeyOk, StrOk, BackEntries, BackItems;
    match v
    case Str(s) => if BlockForm(s) { CutBlockIff(s, d); ShortNewline(s); }
    case List(items) => BackItemsIff(items, d);
    case Map(entries) => BackEntriesIff(entries, d);
    case _ =>
  }

  lemma ShortNewline(s: string)
    ensures BlockForm(s) ==> s != "~"
  {}

  lemma {:induction false} BackEntriesIff(entries: seq<Entry>, d: nat)
    requires FieldsOk(entries) && Unbroken(Map(entries)) && d <= TipParts(Map(entries))
    ensures BackEntries(entries, d) == entries <==>
      Faithful(Map(entries)) && Tight(Map(entries)) && (d == 0 || TipIsNewline(Map(entries)))
    decreases entries
  {
    hide Back, Faithful, Tight, TipIsNewline, Unbroken, Wide, FirstPlain, KeyOk, TipParts;
    UnbrokenFirst(entries);
    FieldsFirst(entries);
    if |entries| == 0 {
      NoTip(d);
      assert entries == [];
    } else {
      var e, own := entries[0], if |entries| == 1 then d else 0;
      TipOfOne(entries);
      BackIff(e.value, own);
      BackEntriesIff(entries[1..], if |entries| == 1 then 0 else d) by { TipOfRest(entries, d); }
      var first := Entry(e.key, Back(e.value, own));
      assert first == e <==> Back(e.value, own) == e.value;
      BackFirst(entries, d, own);
      assert entries == [e] + entries[1..];
    }
  }

  lemma TipOfRest(entries: seq<Entry>, d: nat)
    requires |entries| > 0 && d <= TipParts(Map(entries))
    requires (|entries| > 1 ==> TipParts(Map(entries)) == TipParts(Map(entries[1..])))
    ensures (if |entries| == 1 then 0 else d) <= TipParts(Map(entries[1..]))
  {}

  lemma NoTip(d: nat)
    requires d <= TipParts(Map([]))
    ensures d == 0
  {}

  lemma FieldsFirst(entries: seq<Entry>)
    requires FieldsOk(entries)
    ensures |entries| > 0 ==> InClass(entries[0].value) && FieldsOk(entries[1..])
    ensures Faithful(Map(entries)) <==> |entries| == 0 || (Faithful(entries[0].value) && Faithful(Map(entries[1..])))
    ensures Tight(Map(entries)) <==> |entries| == 0 || (Tight(entries[0].value) && Tight(Map(entries[1..])))
    ensures |entries| > 0 ==>
      (TipIsNewline(Map(entries)) <==> TipIsNewline(if |entries| == 1 then entries[0].value else Map(entries[1..])))
  {
    hide KeyOk;
    if |entries| > 0 {
      assert forall i :: 1 <= i < |entries| ==> entries[i] == entries[1..][i - 1];
    }
  }

  lemma BackFirst(entries: seq<Entry>, d: nat, own: nat)
    requires |entries| > 0 && own == if |entries| == 1 then d else 0
    ensures BackEntries(entries, d)
         == [Entry(entries[0].key, Back(entries[0].value, own))]
              + BackEntries(entries[1..], if |entries| == 1 then 0 else d)
  {
    hide Back;
    if |entries| == 1 {
      assert BackEntries(entries[1..], d) == [] && BackEntries(entries[1..], 0) == [];
    }
  }

  lemma {:induction false} BackItemsIff(items: seq<Value>, d: nat)
    requires (forall i :: 0 <= i < |items| ==> InClass(items[i])) && Unbroken(List(items)) && d <= TipParts(List(items))
    ensures BackItems(items, d) == items <==>
      Faithful(List(items)) && Tight(List(items)) && (d == 0 || TipIsNewline(List(items)))
    decreases items
  {
    hide Back, BackItem, Faithful, Tight, TightIn, TipIsNewline, Unbroken, UnbrokenItem, Wide, FirstPlain, TipParts;
    UnbrokenFirstItem(items);
    ItemsFirst(items);
    if |items| == 0 {
      NoTipItem(d);
      assert items == [];
    } else {
      var own := if |items| == 1 then d else 0;
      TipOfItems(items);
      BackItemIff(items[0], own);
      BackItemsIff(items[1..], if |items| == 1 then 0 else d);
      BackFirstItem(items, d, own);
      assert items == [items[0]] + items[1..];
    }
  }

  lemma NoTipItem(d: nat)
    requires d <= TipParts(List([]))
    ensures d == 0
  {}

  lemma TipOfItems(items: seq<Value>)
    requires |items| > 0
    ensures TipParts(List(items)) == if |items| == 1 then TipParts(items[0]) else TipParts(List(items[1..]))
  {}

  lemma ItemsFirst(items: seq<Value>)
    ensures Faithful(List(items)) <==> |items| == 0 || (Faithful(items[0]) && Faithful(List(items[1..])))
    ensures Tight(List(items)) <==> |items| == 0 || (TightIn(items[0]) && Tight(List(items[1..])))
    ensures |items| > 0 ==>
      (TipIsNewline(List(items)) <==> TipIsNewline(if |items| == 1 then items[0] else List(items[1..])))
  {
    hide TightIn;
    if |items| > 0 {
      assert forall i :: 1 <= i < |items| ==> items[i] == items[1..][i - 1];
    }
  }

  lemma BackFirstItem(items: seq<Value>, d: nat, own: nat)
    requires |items| > 0 && own == if |items| == 1 then d else 0
    ensures BackItems(items, d) == [BackItem(items[0], own)] + BackItems(items[1..], if |items| == 1 then 0 else d)
  {
    hide BackItem;
    if |items| == 1 {
      assert BackItems(items[1..], d) == [] && BackItems(items[1..], 0) == [];
    }
  }

  lemma {:induction false} BackItemIff(v: Value, d: nat)
    requires InClass(v) && UnbrokenItem(v) && d <= TipParts(v)
    ensures BackItem(v, d) == v <==> Faithful(v) && TightIn(v) && (d == 0 || TipIsNewline(v))
    decreases v, 1
  {
    hide Back, Faithful, Tight, TipIsNewline, Wide, FirstPlain, OwnLines, Gap, TipParts, Broken;
    if v.Map? {
      var g := Gap(OwnLines(v.entries));
      assert FieldsOk(v.entries) by { MapFields(v); }
      GapIsTip(v.entries);
      assert v == Map(v.entries);
      BackIff(v, Max(d, g));
      if TipIsNewline(v) { NewlineParts(v); }
    } else {
      BackIff(v, d);
    }
  }

  lemma MapFields(v: Value)
    requires InClass(v) && v.Map?
    ensures FieldsOk(v.entries)
  {
    hide KeyOk, IsPlain;
  }

  /**
   In the class a value comes back from its text exactly where no string is "~", no block line has trailing
   spaces, no dictionary inside a list has a blank line, and the document does not end in one, a last string
   of one newline excepted.
   */
  lemma ClassRoundTrip(v: Value)
    requires InClass(v) && !IsScalar(v)
    ensures ParseYaml(DumpYaml(v)) == Ok(v) <==> Faithful(v) && Tight(v) && TightEnd(v)
  {
    hide ParseYaml, DumpYaml, InClass, Back, Faithful, Tight, TipIsNewline, Unbroken, TipParts, EndBlanks, HeadAt;
    hide DumpNode, Blank;
    ParseOfText(v);
    if Tight(v) { TightUnbroken(v); }
    if Unbroken(v) {
      var lines := DumpNode(v, 0);
      assert Wide(v) by { ClassIsWide(v); }
      NodeHead(v, 0);
      forall i | |lines| - EndBlanks(lines) <= i < |lines| ensures Ignorable(lines[i]) { BlankIsIgnorable(lines[i]); }
      EndIsTip(lines, TipParts(v), EndBlanks(lines));
      BackIff(v, EndBlanks(lines));
    }
  }

  lemma ClassIsWide(v: Value)
    requires InClass(v)
    ensures Wide(v)
  {}

  /** A quoted first key, anywhere inside, and the value does not come back. */
  lemma LostDocument(v: Value)
    requires Wide(v) && !FirstPlain(v)
    ensures ParseYaml(DumpYaml(v)) != Ok(v)
  {
    hide ParseNode, DumpNode, Wide, FirstPlain, Rows, Ignorable, IndentOf, Join, RStrip, Deep, Blank, EndBlanks;
    LostIsNested(v);
    var lines := DumpNode(v, 0);
    var d := EndBlanks(lines);
    NodeDeep(v);
    RowsOfLines(lines);
    var rows := RStripAll(lines[..|lines| - d]);
    forall i | |lines| - d <= i < |lines| ensures Ignorable(lines[i]) { BlankIsIgnorable(lines[i]); }
    assert Stands(rows, 0, lines, d, 0);
    LostNode(v, 0, rows, 0, 0, d);
  }

  /** Dictionaries have each key once, and keys stand on one line. */
  predicate Keyed(v: Value)
    decreases v
  {
    match v
    case List(items) => forall i :: 0 <= i < |items| ==> Keyed(items[i])
    case Map(entries) =>
      DistinctKeys(entries) && forall i :: 0 <= i < |entries| ==> '\n' !in entries[i].key && Keyed(entries[i].value)
    case _ => true
  }

  lemma {:induction false} ReadableIsWide(v: Value)
    requires Keyed(v) && Readable(v)
    ensures Wide(v)
    decreases v
  {
    hide DistinctKeys;
    match v
    case List(items) =>
      forall i | 0 <= i < |items| ensures Wide(items[i]) { ReadableIsWide(items[i]); }
    case Map(entries) =>
      forall i | 0 <= i < |entries| ensures KeyOk(entries[i].key) && Wide(entries[i].value) {
        ReadableIsWide(entries[i].value);
      }
    case _ =>
  }

  /**
   The round trip of every dictionary and list whose keys stand on one line.  It holds exactly where the
   printer accepts the value (no empty key, except in a dictionary that is a list item), the value is in the
   class (no carriage returns, no colon in a key, plain first keys), no string is "~", no block line has
   trailing spaces, no dictionary inside a list has a blank line, and the document does not end in one, a
   last string of one newline excepted.
   */
  lemma RoundTripExactly(v: Value)
    requires !IsScalar(v) && Keyed(v)
    ensures ThereAndBack(v) == Ok(v) <==> Dumpable(v) && InClass(v) && Faithful(v) && Tight(v) && TightEnd(v)
  {
    hide ParseYaml, DumpYaml, Dumpable, Wide, FirstPlain, Faithful, Tight, TightEnd, Keyed, Readable;
    TextExactly(v);
  }

  lemma TextExactly(v: Value)
    requires !IsScalar(v) && Keyed(v)
    ensures ParseYaml(DumpYaml(v)) == Ok(v) <==> InClass(v) && Faithful(v) && Tight(v) && TightEnd(v)
  {
    hide ParseYaml, DumpYaml, Wide, FirstPlain, Faithful, Tight, TightEnd, Keyed, Readable;
    if ParseYaml(DumpYaml(v)) == Ok(v) {
      ParsedIsReadable(DumpYaml(v));
      ReadableIsWide(v);
      if !FirstPlain(v) { LostDocument(v); }
    }
    if InClass(v) { ClassRoundTrip(v); }
  }

  lemma TwoNullLines(a: string, b: string)
    requires KeyOk(a) && KeyOk(b)
    ensures var lines := DumpEntries([Entry(a, Null), Entry(b, Null)], 0);
      Gap(lines) == 0 && EndBlanks(lines) == 0
  {
    hide FieldText, KeyOk, Blank, Solid;
    var e, f := Entry(a, Null), Entry(b, Null);
    FieldLine(e);
    FieldLine(f);
    SolidIsInk(FieldText(e));
    SolidIsInk(FieldText(f));
    var entries := [e, f];
    assert entries[1..] == [f] && [f][1..] == [];
    assert DumpEntries([], 0) == [];
    assert DumpEntries([f], 0) == [Pad(0) + FieldText(f)];
    assert DumpEntries(entries, 0) == [Pad(0) + FieldText(e), Pad(0) + FieldText(f)];
    GapAndEnd(Pad(0) + FieldText(e), Pad(0) + FieldText(f));
  }

  lemma SolidIsInk(s: string)
    requires Solid(s)
    ensures !Blank(Pad(0) + s)
  {
    assert Pad(0) + s == s;
  }

  lemma GapAndEnd(a: string, b: string)
    requires !Blank(a) && !Blank(b)
    ensures Gap([a, b]) == 0 && EndBlanks([a, b]) == 0
  {
    hide Blank;
    assert [a, b][1..] == [b] && [b][1..] == [];
    assert Gap([]) == 0;
    assert Gap([b]) == 0;
  }

  /** A later empty key is refused, although its text would read back; inside a list it is printed and comes back. */
  lemma EmptyKeyOnlyInLists(key: string)
    requires IsPlain(key) && KeyOk(key)
    ensures var v := Map([Entry(key, Null), Entry("", Null)]);
      && ThereAndBack(v) == Err(EmptyKey) && ParseYaml(DumpYaml(v)) == Ok(v)
      && ThereAndBack(List([v])) == Ok(List([v]))
  {
    hide ParseYaml, DumpYaml, IsPlain, Gap, EndBlanks, DumpEntries, InClass, Keyed, Faithful, Tight;
    var entries := [Entry(key, Null), Entry("", Null)];
    var v := Map(entries);
    TwoNullLines(key, "");
    TwoNullFields(key);
    assert entries[1].key == "";
    assert DumpNode(v, 0) == DumpEntries(entries, 0);
    TextExactly(v);
    ItemEnds(v) by { ClassIsWide(v); }
    RoundTripExactly(List([v]));
  }

  lemma NullFacts()
    ensures Wide(Null) && FirstPlain(Null) && Dumpable(Null)
  {}

  lemma TwoNullFields(key: string)
    requires IsPlain(key) && KeyOk(key)
    ensures var v := Map([Entry(key, Null), Entry("", Null)]);
      && InClass(v) && Keyed(v) && Faithful(v) && Tight(v) && TipParts(v) == 0
      && InClass(List([v])) && Keyed(List([v])) && Faithful(List([v])) && Tight(List([v])) && Dumpable(List([v]))
  {
    hide IsPlain, Gap, DumpEntries;
    TwoNullLines(key, "");
    PlainChars(key);
    var entries := [Entry(key, Null), Entry("", Null)];
    var v := Map(entries);
    assert KeyOk("");
    forall i | 0 <= i < 2 ensures Wide(entries[i].value) && FirstPlain(entries[i].value) && Dumpable(entries[i].value) {
      NullFacts();
    }
    assert DistinctKeys(entries);
    assert Wide(v) && FirstPlain(v) && DumpableInside(v);
    assert [v][0] == v;
    assert DumpableInside(List([v]));
    assert TightItem(entries);
  }

  /** A dictionary without blank lines in a list of its own: the list does not end in one. */
  lemma ItemEnds(v: Value)
    requires v.Map? && |v.entries| > 0 && Wide(v) && TipParts(v) == 0
    ensures EndBlanks(DumpNode(List([v]), 0)) == 0
  {
    hide EndBlanks, Wide, DumpItems, Blank, HeadAt;
    assert Wide(List([v])) by { ListOfOne(v); }
    NodeHead(List([v]), 0);
    assert TipParts(List([v])) == TipParts(v);
    LastIsInk(DumpNode(List([v]), 0));
  }

  lemma ListOfOne(v: Value)
    requires Wide(v)
    ensures Wide(List([v]))
  {}

  lemma LastIsInk(lines: seq<string>)
    requires HeadAt(lines, 0)
    ensures EndBlanks(lines) == 0
  {
    hide Ignorable, Blank;
    if Blank(lines[|lines| - 1]) { BlankIsIgnorable(lines[|lines| - 1]); }
  }

  /** Two values that come back and have the same text are the same value. */
  lemma DumpInjective(v: Value, w: Value)
    requires !IsScalar(v) && Keyed(v) && InClass(v) && Faithful(v) && Tight(v) && TightEnd(v)
    requires !IsScalar(w) && Keyed(w) && InClass(w) && Faithful(w) && Tight(w) && TightEnd(w)
    requires DumpYaml(v) == DumpYaml(w)
    ensures v == w
  {
    hide ParseYaml, DumpYaml, InClass, Faithful, Tight, TightEnd, Keyed;
    TextExactly(v);
    TextExactly(w);
  }

  // ---------- scalar documents ----------

  lemma AtomSolid(t: string)
    requires Atom(t)
    ensures Solid(t)
  {}

  /** A scalar document reads back, except "~" and negative numbers, which look like a list. */
  lemma ScalarDocument(v: Value)
    requires IsScalar(v) && (v.Str? ==> NoBreaks(v.s))
    ensures ParseYaml(DumpYaml(v))
         == if v.Int? && v.n < 0 then Err(MalformedListItem) else Ok(if v == Str("~") then Null else v)
  {
    hide Rows, Ignorable, IndentOf, RStrip, MapLoop, ParseScalar, IntToString, DumpText, Deep, Solid, Strip;
    var t := DumpScalar(v);
    var line := Pad(0) + t;
    TopScalar(v);
    AtomSolid(t);
    SolidLine(0, t);
    DeepSolid(0, t);
    NonBlankOne(line) by { AtomNotBlank(t); }
    RowsOfLines([line]);
    var rows := RStripAll([line]);
    assert line == t;
    assert rows == [t];
    StartOnly(t);
    assert SkipIgnorable(rows, 1) == 1;
    if v.Int? && v.n < 0 {
      MinusList(t);
    }
  }

  lemma AtomNotBlank(t: string)
    requires Atom(t)
    ensures !Blank(Pad(0) + t)
  {
    assert Pad(0) + t == t;
  }

  lemma StartOnly(t: string)
    requires !Ignorable(t)
    ensures SkipIgnorable([t], 0) == 0
  {}

  /** The text of a scalar whose string has no line break, block length or not. */
  lemma TopScalar(v: Value)
    requires IsScalar(v) && (v.Str? ==> NoBreaks(v.s))
    ensures Atom(DumpScalar(v)) && NoBreaks(DumpScalar(v)) && !LooksLikeMap(DumpScalar(v))
    ensures DumpScalar(v) != "{}" && DumpScalar(v) != "[]"
    ensures "-" <= DumpScalar(v) <==> v.Int? && v.n < 0
    ensures v.Int? && v.n < 0 ==> |DumpScalar(v)| > 1 && DumpScalar(v)[1] != ' '
    ensures ParseScalar(DumpScalar(v)) == Ok(if v == Str("~") then Null else v)
  {
    hide ParseScalar, IsPlain, IsSpace;
    match v
    case Str(s) =>
      if IsPlain(s) { PlainFacts(s); PlainChars(s); } else { QuoteFacts(s); TildeIsPlain(); }
    case Int(n) =>
      ScalarRoundTrip(v);
      var d := NatToString(if n < 0 then -n else n);
      assert IsDigit(d[0]);
    case _ => ScalarRoundTrip(v);
  }

  lemma MinusList(t: string)
    requires "-" <= t && |t| > 1 && t[1] != ' ' && !Ignorable(t) && IndentOf(t) == 0
    ensures ListLoop([t], 0, 0, []) == Fail(MalformedListItem)
  {
    hide ParseNode, MapLoop, ParseScalar, Strip, Ignorable, IndentOf, Ink;
    assert t[0..] == t;
  }

  // ---------- scalars with line breaks ----------

  lemma {:induction false} EscapeAppend(a: string, b: string)
    ensures Escape(a + b) == Escape(a) + Escape(b)
  {
    if |a| == 0 {
      assert a + b == b;
    } else {
      assert (a + b)[1..] == a[1..] + b;
      EscapeAppend(a[1..], b);
    }
  }

  /** A quoted text that ends behind the backslash of an escaped quote. */
  lemma {:induction false} Dangling(s: string)
    ensures Unescape(Escape(s) + "\\") == Err(DanglingEscape)
  {
    var t := Escape(s) + "\\";
    if |s| > 0 {
      Dangling(s[1..]);
      var rest := Escape(s[1..]) + "\\";
      if s[0] == '\\' || s[0] == '"' {
        assert t[2..] == rest;
      } else {
        assert t[1..] == rest;
      }
    }
  }

  /** Trailing spaces go before or after escaping. */
  lemma {:induction false} RStripEscape(s: string)
    ensures RStrip("\"" + Escape(s)) == "\"" + Escape(RStrip(s))
  {
    hide RStrip;
    RStripProps(s);
    var kept, tail := RStrip(s), s[|RStrip(s)|..];
    assert s == kept + tail;
    EscapeAppend(kept, tail);
    BlankTail(s);
    BlankEscape(tail);
    EscapeEnd(kept);
    var front := "\"" + Escape(kept);
    assert "\"" + Escape(s) == front + tail;
    RStripTo(front, tail);
  }

  lemma {:induction false} BlankTail(s: string)
    ensures RStrip(s) <= s && Blank(s[|RStrip(s)|..])
  {
    RStripProps(s);
    if |s| > 0 && IsSpace(s[|s| - 1]) {
      BlankTail(s[..|s| - 1]);
      var k := |RStrip(s)|;
      assert s[k..] == s[..|s| - 1][k..] + [s[|s| - 1]];
    }
  }

  lemma {:induction false} BlankEscape(s: string)
    requires Blank(s)
    ensures Escape(s) == s
  {
    if |s| > 0 {
      assert s[0] != '\\' && s[0] != '"';
      BlankEscape(s[1..]);
      assert [s[0]] + s[1..] == s;
    }
  }

  lemma EscapeEnd(s: string)
    requires |s| > 0 ==> !IsSpace(s[|s| - 1])
    ensures |Escape(s)| > 0 ==> !IsSpace(Escape(s)[|Escape(s)| - 1])
    ensures |s| > 0 && s[|s| - 1] == '"' ==> Escape(s) == Escape(s[..|s| - 1]) + "\\\""
    ensures |Escape(s)| > 0 && Escape(s)[|Escape(s)| - 1] == '"' ==> |s| > 0 && s[|s| - 1] == '"'
  {
    if |s| > 0 {
      var init, last := s[..|s| - 1], [s[|s| - 1]];
      assert s == init + last;
      EscapeAppend(init, last);
      assert last[1..] == "" && Escape("") == "";
    }
  }

  lemma {:induction false} RStripTo(front: string, tail: string)
    requires Blank(tail) && |front| > 0 && !IsSpace(front[|front| - 1])
    ensures RStrip(front + tail) == front
  {
    if |tail| == 0 {
      assert front + tail == front;
    } else {
      var all := front + tail;
      assert all[..|all| - 1] == front + tail[..|tail| - 1];
      RStripTo(front, tail[..|tail| - 1]);
    }
  }

  /** The first row of a quoted string with a line break: no string with a line break, or no scalar at all. */
  lemma OpenQuote(s: string)
    requires '\n' !in s
    ensures var r := ParseScalar(RStrip("\"" + Escape(s)));
      r.Ok? ==> r.value.Str? && '\n' !in r.value.s
  {
    hide RStrip, Unescape, ReplaceDoubledQuotes, ParseDigits, AllDigits, Escape;
    RStripEscape(s);
    RStripProps(s);
    var kept := RStrip(s);
    EscapeEnd(kept);
    var row := "\"" + Escape(kept);
    StripId(row) by { QuoteIsInk(); }
    EscapeFacts(kept) by { assert forall c :: c in kept ==> c in s; }
    NoNewline(kept) by { assert forall c :: c in kept ==> c in s; }
    DigitNoQuote(row);
    if |row| >= 2 && row[|row| - 1] == '"' {
      var q := kept[..|kept| - 1];
      assert row[1..|row| - 1] == Escape(q) + "\\";
      Dangling(q);
    }
  }

  lemma QuoteIsInk()
    ensures !IsSpace('"')
  {}

  lemma {:induction false} NoNewline(s: string)
    requires '\n' !in s
    ensures '\n' !in Escape(s)
  {
    if |s| > 0 { NoNewline(s[1..]); }
  }

  /** A row without quotes at its front yields no string with a line break. */
  lemma BareRow(row: string)
    requires |row| > 0 && row[0] != '"' && !IsSpace(row[0]) && '\n' !in row
    ensures var r := ParseScalar(row); r.Ok? && r.value.Str? ==> '\n' !in r.value.s
  {
    hide Strip, Unescape, ReplaceDoubledQuotes, ParseDigits, AllDigits;
    StripFrom(row);
    StripProps(row);
    var text := Strip(row);
    assert |text| > 0 ==> text[0] == row[0] by { FirstStays(row); }
    if |text| >= 2 {
      var inner := text[1..|text| - 1];
      assert From(inner, text);
      DoubledFrom(inner);
    }
  }

  lemma FirstStays(row: string)
    requires |row| > 0 && !IsSpace(row[0])
    ensures |Strip(row)| > 0 && Strip(row)[0] == row[0]
  {
    LStripId(row);
    RStripProps(row);
  }

  /** The first row of a text that begins with a character. */
  lemma FirstRow(text: string)
    requires |text| > 0 && !IsSpace(text[0]) && '\r' !in text
    ensures |Rows(text)| > 0 && Rows(text)[0] == RStrip(text[..Find(text, '\n')])
    ensures |Rows(text)[0]| > 0 && Rows(text)[0][0] == text[0]
  {
    hide NormalizeNewlines, Split, RStrip, Find, DropBlankTail, IsSpace;
    NormalizeNothing(text);
    var k := Find(text, '\n');
    FirstPart(text);
    var rows := RStripAll(Split(text, '\n'));
    assert k > 0 by { NewlineIsSpace(); }
    RStripProps(text[..k]);
    assert rows[0] != "" by { assert !Blank(text[..k]) by { assert !IsSpace(text[..k][0]); } }
    KeepsInk(rows);
  }

  lemma NewlineIsSpace()
    ensures IsSpace('\n')
  {}

  lemma {:induction false} FirstPart(s: string)
    ensures Split(s, '\n')[0] == s[..Find(s, '\n')]
  {
    if |s| > 0 && s[0] != '\n' {
      FirstPart(s[1..]);
      var k := Find(s[1..], '\n');
      assert s[..k + 1] == [s[0]] + s[1..][..k];
    }
  }

  lemma {:induction false} KeepsInk(rows: seq<string>)
    requires |rows| > 0 && |rows[0]| > 0 && !IsSpace(rows[0][0])
    ensures |DropBlankTail(rows)| > 0 && DropBlankTail(rows)[0] == rows[0]
  {
    if Strip(rows[|rows| - 1]) == "" {
      StripProps(rows[|rows| - 1]);
      assert |rows| > 1 by { assert !Blank(rows[0]); }
      KeepsInk(rows[..|rows| - 1]);
    }
  }

  /** A scalar on the first row is all that can be read. */
  lemma FirstRowOnly(text: string)
    requires |text| > 0 && |Rows(text)| > 0
    requires var row := Rows(text)[0];
      |row| > 0 && !IsSpace(row[0]) && row[0] !in "#-{[" && !LooksLikeMap(row)
    ensures ParseYaml(text).Ok? ==> ParseScalar(Rows(text)[0]) == Ok(ParseYaml(text).value)
  {
    hide Rows, ListLoop, MapLoop, ParseScalar, Ink, LooksLikeMap, IsSpace;
    var row := Rows(text)[0];
    assert row[0] != ' ' by { BlankIsASpace(); }
    LStripId(row);
    StripProps(row);
    assert !Blank(row);
    assert !Ignorable(row);
    assert SkipIgnorable(Rows(text), 0) == 0;
    assert IndentOf(row) == 0 && row[0..] == row;
  }

  lemma BlankIsASpace()
    ensures IsSpace(' ')
  {}

  /** A scalar string with a line break does not come back, whether it is printed plain or in quotes. */
  lemma BrokenScalar(s: string)
    requires '\n' in s && '\r' !in s
    ensures ParseYaml(DumpYaml(Str(s))) != Ok(Str(s))
  {
    hide Rows, ParseYaml, ParseScalar, RStrip, IsSpace, LooksLikeMap, Escape, Find, IsPlain;
    var t := DumpText(s);
    var text := t + "\n";
    assert DumpYaml(Str(s)) == text by { OneLineText(s); }
    if IsPlain(s) { PlainChars(s); } else { QuoteIsInk(); EscapeReturn(s); }
    FirstRow(text);
    var k := Find(text, '\n');
    var row := Rows(text)[0];
    RStripProps(text[..k]);
    assert forall c :: c in row ==> c in text[..k];
    if IsPlain(s) {
      assert ':' !in row by { assert forall c :: c in row ==> c in s || c == '\n'; }
      NoColonNoMap(row);
      FirstRowOnly(text);
      BareRow(row);
    } else {
      var p := s[..Find(s, '\n')];
      QuotedFront(s);
      assert row == RStrip("\"" + Escape(p));
      QuoteNoMap(row);
      FirstRowOnly(text);
      OpenQuote(p);
    }
  }

  lemma OneLineText(s: string)
    ensures DumpYaml(Str(s)) == DumpText(s) + "\n"
  {
    hide DumpText;
    assert Pad(0) + DumpText(s) == DumpText(s);
  }

  lemma {:induction false} EscapeReturn(s: string)
    requires '\r' !in s
    ensures '\r' !in Escape(s)
  {
    if |s| > 0 { EscapeReturn(s[1..]); }
  }

  lemma NoColonNoMap(row: string)
    requires ':' !in row
    ensures !LooksLikeMap(row)
  {}

  lemma QuoteNoMap(row: string)
    requires |row| > 0 && row[0] == '"'
    ensures !LooksLikeMap(row)
  {}

  /** The first line of a quoted string is the quote and what is escaped of its first line. */
  lemma QuotedFront(s: string)
    requires '\n' in s
    ensures var text := Quote(s) + "\n";
      text[..Find(text, '\n')] == "\"" + Escape(s[..Find(s, '\n')])
  {
    hide Find, Escape;
    var k := Find(s, '\n');
    assert s[..|s|] == s;
    var p, rest := s[..k], s[k..];
    assert s == p + rest && rest == ['\n'] + rest[1..];
    EscapeAppend(p, rest);
    EscapeAppend(['\n'], rest[1..]);
    assert Escape(['\n']) == ['\n'] by { EscapeNewline(); }
    NoNewline(p);
    var front := "\"" + Escape(p);
    var more := Escape(rest[1..]) + "\"" + "\n";
    assert Quote(s) + "\n" == front + ['\n'] + more;
    FindIn(front, '\n', more);
  }

  lemma EscapeNewline()
    ensures Escape(['\n']) == ['\n']
  {
    assert ['\n'][1..] == "" && Escape("") == "";
  }

  lemma ScalarAccepted(v: Value)
    requires IsScalar(v)
    ensures Dumpable(v)
  {}

  /** Every scalar document: it comes back exactly where it is not "~", no negative number, and has no line break. */
  lemma ScalarExactly(v: Value)
    requires IsScalar(v)
    ensures ThereAndBack(v) == Ok(v) <==>
      v != Str("~") && !(v.Int? && v.n < 0) && (v.Str? ==> NoBreaks(v.s))
  {
    hide ParseYaml, DumpYaml;
    ScalarAccepted(v);
    if v.Str? && !NoBreaks(v.s) {
      if '\r' in v.s { ParsedIsReadable(DumpYaml(v)); } else { BrokenScalar(v.s); }
    } else {
      ScalarDocument(v);
    }
  }

  // ---------- a quoted first key ----------

  lemma QuotedRow(text: string)
    requires "\"" <= text
    ensures |Rows(text)| > 0 && "\"" <= Rows(text)[0]
  {
    hide DropBlankTail;
    var t := NormalizeNewlines(text);
    var parts := Split(t, '\n');
    assert t[0] == '"';
    assert "\"" <= parts[0];
    var rows := RStripAll(parts);
    RStripProps(parts[0]);
    assert !IsSpace(parts[0][0]) && !Blank(parts[0]);
    assert rows[0][0] == '"';
    KeepsFirst(rows);
  }

  lemma {:induction false} KeepsFirst(rows: seq<string>)
    requires |rows| > 0 && "\"" <= rows[0]
    ensures |DropBlankTail(rows)| > 0 && DropBlankTail(rows)[0] == rows[0]
  {
    if Strip(rows[|rows| - 1]) == "" {
      StripProps(rows[|rows| - 1]);
      assert !IsSpace(rows[0][0]) && !Blank(rows[0]);
      KeepsFirst(rows[..|rows| - 1]);
    }
  }

  /** A document that starts with a quote is never read as a dictionary. */
  lemma QuotedIsNoMap(text: string)
    requires "\"" <= text
    ensures ParseYaml(text).Ok? ==> ParseYaml(text).value.Str?
  {
    hide Rows, ListLoop, MapLoop, Unescape, ReplaceDoubledQuotes, AllDigits, Ink;
    var rows := Rows(text);
    QuotedRow(text);
    var row := rows[0];
    LStripId(row);
    StripProps(row);
    assert !Blank(row);
    assert !Ignorable(row);
    assert SkipIgnorable(rows, 0) == 0;
    assert IndentOf(row) == 0 && row[0..] == row;
    RStripProps(row);
    assert Strip(row)[0] == '"';
    DigitNoQuote(Strip(row));
  }

  lemma DigitNoQuote(t: string)
    requires "\"" <= t
    ensures !AllDigits(t)
  {
    assert !IsDigit(t[0]);
  }

  /** The parser does not take a quoted first key for a dictionary: such a value never comes back. */
  lemma QuotedFirstKeyIsLost(v: Value)
    requires v.Map? && |v.entries| > 0 && !IsPlain(v.entries[0].key)
    ensures ParseYaml(DumpYaml(v)) != Ok(v)
  {
    hide ParseYaml, IsPlain, Escape, Below, Tail;
    EntriesFirst(v.entries, 0);
    var lines := DumpNode(v, 0);
    assert lines[0] == Pad(0) + FieldText(v.entries[0]);
    assert lines[0][0] == '"';
    assert Join(lines, '\n')[0] == '"';
    QuotedIsNoMap(DumpYaml(v));
  }

  /** On the top level the first key decides: the round trip holds exactly when it is plain and the rest comes back. */
  lemma TopLevelMapExactly(v: Value)
    requires v.Map? && |v.entries| > 0 && FieldsOk(v.entries)
    ensures ThereAndBack(v) == Ok(v) <==>
      Dumpable(v) && IsPlain(v.entries[0].key) && Faithful(v) && Tight(v) && TightEnd(v)
  {
    hide ParseYaml, DumpYaml, Dumpable, IsPlain, Faithful, Tight, TightEnd, KeyOk;
    if IsPlain(v.entries[0].key) {
      ClassRoundTrip(v);
    } else {
      QuotedFirstKeyIsLost(v);
    }
  }
}
