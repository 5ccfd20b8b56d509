/** Comment lines put between or behind what the printer of omg_cli/catalog_yaml.py wrote. */
module YamlPrinted {
  import opened Text
  import opened Yaml
  import opened YamlScalars
  import opened YamlShape
  import opened YamlRoundTrip
  import opened YamlDocument
  import opened YamlComments
  import opened YamlCommented

  // ---------- between fields, between items ----------

  lemma {:induction false} JoinTwo(a: seq<string>, b: seq<string>)
    requires |a| > 0 && |b| > 0
    ensures Join(a + b, '\n') == Join(a, '\n') + "\n" + Join(b, '\n')
  {
    if |a| == 1 {
      assert (a + b)[1..] == b;
    } else {
      assert (a + b)[1..] == a[1..] + b;
      JoinTwo(a[1..], b);
    }
  }

  lemma {:induction false} EntriesAppend(a: seq<Entry>, b: seq<Entry>, level: nat)
    ensures DumpEntries(a + b, level) == DumpEntries(a, level) + DumpEntries(b, level)
    decreases |a|
  {
    hide Below, FieldText;
    if |a| == 0 {
      assert a + b == b && DumpEntries(a, level) == [];
    } else {
      assert (a + b)[1..] == a[1..] + b && (a + b)[0] == a[0];
      EntriesAppend(a[1..], b, level);
    }
  }

  lemma {:induction false} ItemsAppend(a: seq<Value>, b: seq<Value>, level: nat)
    ensures DumpItems(a + b, level) == DumpItems(a, level) + DumpItems(b, level)
    decreases |a|
  {
    hide DumpItem;
    if |a| == 0 {
      assert a + b == b && DumpItems(a, level) == [];
    } else {
      assert (a + b)[1..] == a[1..] + b && (a + b)[0] == a[0];
      ItemsAppend(a[1..], b, level);
    }
  }

  /** Lines with a comment put in between. */
  lemma BetweenLines(a: seq<string>, c: string, b: seq<string>)
    requires |a| > 0 && |b| > 0 && NoBreaks(c) && b[0] != "" && !IsSpace(b[0][0])
    ensures ParseYaml(Join(a + ["#" + c] + b, '\n') + "\n") == ParseYaml(Join(a + b, '\n') + "\n")
  {
    hide ParseYaml, Join, IsSpace;
    var front, behind := Join(a, '\n') + "\n", Join(b, '\n') + "\n";
    JoinTwo(a, b);
    JoinTwo(a + ["#" + c], b);
    JoinTwo(a, ["#" + c]);
    JoinOfOne("#" + c);
    JoinStarts(b);
    assert Join(a + b, '\n') + "\n" == front + behind;
    assert Join(a + ["#" + c] + b, '\n') + "\n" == front + "#" + c + "\n" + behind;
    CommentBetween(front, c, behind);
  }

  lemma JoinOfOne(s: string)
    ensures Join([s], '\n') == s
  {}

  lemma JoinStarts(b: seq<string>)
    requires |b| > 0 && b[0] != ""
    ensures Join(b, '\n') != "" && Join(b, '\n')[0] == b[0][0]
  {}

  /** A comment between two fields of a printed dictionary changes nothing, whatever the fields are. */
  lemma CommentBetweenFields(a: seq<Entry>, c: string, b: seq<Entry>)
    requires |a| > 0 && |b| > 0 && NoBreaks(c)
    ensures ParseYaml(Join(DumpEntries(a, 0) + ["#" + c] + DumpEntries(b, 0), '\n') + "\n")
         == ParseYaml(DumpYaml(Map(a + b)))
  {
    hide ParseYaml, Join, DumpEntries, IsSpace, FieldText, Below;
    EntriesAppend(a, b, 0);
    EntriesFirst(b, 0);
    FieldStarts(b[0]);
    BetweenLines(DumpEntries(a, 0), c, DumpEntries(b, 0));
  }

  /** It is read as the whole dictionary exactly where that comes back from its own text. */
  lemma CommentedFields(a: seq<Entry>, c: string, b: seq<Entry>)
    requires |a| > 0 && |b| > 0 && NoBreaks(c) && InClass(Map(a + b))
    ensures ParseYaml(Join(DumpEntries(a, 0) + ["#" + c] + DumpEntries(b, 0), '\n') + "\n") == Ok(Map(a + b)) <==>
      Faithful(Map(a + b)) && Tight(Map(a + b)) && TightEnd(Map(a + b))
  {
    hide ParseYaml, Join, DumpYaml, InClass, Faithful, Tight, TightEnd;
    CommentBetweenFields(a, c, b);
    ClassRoundTrip(Map(a + b));
  }

  lemma FieldStarts(e: Entry)
    ensures Pad(0) + FieldText(e) != "" && !IsSpace((Pad(0) + FieldText(e))[0])
  {
    hide Tail, Escape, Lower;
    assert Pad(0) == "";
    assert Pad(0) + FieldText(e) == FieldText(e);
    if IsPlain(e.key) {
      StripFixpoint(e.key);
      assert FieldText(e)[0] == e.key[0];
    } else {
      QuoteIsInk();
      assert FieldText(e)[0] == '"';
    }
  }

  /** A comment between two items of a printed list changes nothing. */
  lemma CommentBetweenItems(a: seq<Value>, c: string, b: seq<Value>)
    requires |a| > 0 && |b| > 0 && NoBreaks(c)
    ensures ParseYaml(Join(DumpItems(a, 0) + ["#" + c] + DumpItems(b, 0), '\n') + "\n")
         == ParseYaml(DumpYaml(List(a + b)))
  {
    hide ParseYaml, Join, DumpItems, IsSpace;
    ItemsAppend(a, b, 0);
    ItemStarts(b);
    BetweenLines(DumpItems(a, 0), c, DumpItems(b, 0));
  }

  lemma CommentedItems(a: seq<Value>, c: string, b: seq<Value>)
    requires |a| > 0 && |b| > 0 && NoBreaks(c) && InClass(List(a + b))
    ensures ParseYaml(Join(DumpItems(a, 0) + ["#" + c] + DumpItems(b, 0), '\n') + "\n") == Ok(List(a + b)) <==>
      Faithful(List(a + b)) && Tight(List(a + b)) && TightEnd(List(a + b))
  {
    hide ParseYaml, Join, DumpYaml, InClass, Faithful, Tight, TightEnd;
    CommentBetweenItems(a, c, b);
    ClassRoundTrip(List(a + b));
  }

  lemma ItemStarts(items: seq<Value>)
    requires |items| > 0
    ensures DumpItems(items, 0)[0] != "" && !IsSpace(DumpItems(items, 0)[0][0])
  {
    hide ItemBelow, DumpItem, FieldText, Tail;
    ItemShape(items[0], 0);
    assert Pad(0) == "";
    assert DumpItems(items, 0)[0] == DumpItem(items[0], 0)[0] == Pad(0) + ItemText(items[0]);
    assert DumpItems(items, 0)[0][0] == '-';
  }

  // ---------- behind the whole ----------

  /** A printed value with a comment behind it comes back with its last lines, also the blank ones. */
  lemma CommentBehind(v: Value, c: string)
    requires InClass(v) && !IsScalar(v) && NoBreaks(c)
    ensures ParseYaml(DumpYaml(v) + "#" + c + "\n").Ok? <==> Unbroken(v)
    ensures Unbroken(v) ==> ParseYaml(DumpYaml(v) + "#" + c + "\n") == Ok(Back(v, 0))
  {
    hide ParseYaml, ParseNode, DumpNode, Wide, FirstPlain, Back, Ignorable, IndentOf, Join, RStrip, Deep, Unbroken;
    hide FrontRows;
    var lines := DumpNode(v, 0);
    CommentAtEnd(DumpYaml(v), c);
    PrintedRows(v);
    var rows := RStripAll(lines);
    assert At(rows, 0, lines) && Stops(rows, |lines|, 0);
    StandsWhole(rows, 0, lines, 0);
    NodeParse(v, 0, rows, 0, 0, 0);
  }

  lemma PrintedRows(v: Value)
    requires InClass(v) && !IsScalar(v)
    ensures FrontRows(DumpYaml(v)) == RStripAll(DumpNode(v, 0))
  {
    hide Deep, NoBreaks, Split, Join, NormalizeNewlines, RStripAll, DumpNode, Wide, FirstPlain;
    var lines := DumpNode(v, 0);
    NodeDeep(v);
    DeepBreaks(lines);
    JoinNoReturn(lines);
    NormalizeNothing(DumpYaml(v));
    JoinEnd(lines);
    SplitJoin(lines + [""], '\n');
    assert (lines + [""])[..|lines|] == lines;
  }

  /** So with a comment behind it it comes back exactly where only no "~" and no trailing or inner blank is lost. */
  lemma CommentKeepsEnd(v: Value, c: string)
    requires InClass(v) && !IsScalar(v) && NoBreaks(c)
    ensures ParseYaml(DumpYaml(v) + "#" + c + "\n") == Ok(v) <==> Faithful(v) && Tight(v)
  {
    hide ParseYaml, DumpYaml, InClass, Back, Faithful, Tight, Unbroken, TipParts, TipIsNewline;
    CommentBehind(v, c);
    if Tight(v) { TightUnbroken(v); }
    if Unbroken(v) { BackIff(v, 0); }
  }

  // ---------- when the comment makes a difference ----------

  /** The value ends inside a dictionary that is a list item. */
  predicate EndsInItem(v: Value)
    decreases v
  {
    match v
    case List(items) => |items| > 0 && (items[|items| - 1].Map? || EndsInItem(items[|items| - 1]))
    case Map(entries) => |entries| > 0 && EndsInItem(entries[|entries| - 1].value)
    case _ => false
  }

  /** The last d lines are blank. */
  predicate BlankEnd(lines: seq<string>, d: nat) {
    d <= |lines| && forall i :: |lines| - d <= i < |lines| ==> Blank(lines[i])
  }

  lemma EndOfEnd(a: seq<string>, b: seq<string>, d: nat)
    requires BlankEnd(a + b, d) && d <= |b|
    ensures BlankEnd(b, d)
  {
    hide Blank;
    forall i | |b| - d <= i < |b| ensures Blank(b[i]) { assert b[i] == (a + b)[|a| + i]; }
  }

  lemma EndIsInTip(lines: seq<string>, t: nat, d: nat)
    requires HeadAt(lines, t) && BlankEnd(lines, d)
    ensures d <= t < |lines|
  {
    hide Blank, Ignorable;
    forall i | |lines| - d <= i < |lines| ensures Ignorable(lines[i]) { BlankIsIgnorable(lines[i]); }
    EndIsTip(lines, t, d);
  }

  /** A block with d blank lines at its end, without them. */
  lemma BlockCut(s: string, level: nat, d: nat)
    requires BlockForm(s) && d > 0 && BlankEnd(Indented(Split(BlockBody(s), '\n'), level), d)
    ensures CutBlock(s, d) == CutBlock(s, 0) <==> |Split(BlockBody(s), '\n')| == 1
  {
    hide Split, Join, RStrip, Blank, BlockBody, Spaces;
    var parts := Split(BlockBody(s), '\n');
    var n := |parts|;
    var end := if EndsWithChar(s, '\n') then "\n" else "";
    var whole, cut := RStripAll(parts), RStripAll(parts[..n - d]);
    assert parts[..n - 0] == parts;
    assert CutBlock(s, d) == Join(cut, '\n') + end && CutBlock(s, 0) == Join(whole, '\n') + end;
    SameFront(Join(cut, '\n'), Join(whole, '\n'), end);
    if n == 1 {
      var line := Indented(parts, level)[0];
      assert Blank(line);
      BlankPadded(2 * level, parts[0]);
      RStripProps(parts[0]);
      JoinOfOne("");
      assert whole == [""] && cut == [];
      NoLines();
    } else {
      JoinSplit(BlockBody(s), '\n');
      forall i | 0 <= i < n ensures '\n' !in whole[i] { RStripProps(parts[i]); }
      SplitJoin(whole, '\n');
      if cut == [] {
        NoLines();
        EmptySplit();
      } else {
        forall i | 0 <= i < |cut| ensures '\n' !in cut[i] { assert cut[i] == whole[i]; }
        SplitJoin(cut, '\n');
      }
    }
  }

  lemma SameFront(a: string, b: string, end: string)
    ensures a + end == b + end <==> a == b
  {
    if a + end == b + end {
      assert a == (a + end)[..|a + end| - |end|] && b == (b + end)[..|b + end| - |end|];
    }
  }

  lemma NoLines()
    ensures Join([], '\n') == ""
  {}

  lemma {:induction false} BelowCut(v: Value, level: nat, d: nat)
    requires InClass(v) && 0 < d <= TipParts(v) && BlankEnd(Below(v, level), d)
    ensures Back(v, d) == Back(v, 0) <==> TipParts(v) == 1 || EndsInItem(v)
    decreases v, 1
  {
    hide DumpEntries, DumpItems, CutBlock, BackEntries, BackItems, Split, KeyOk, IsPlain, StrOk, Blank, BlockBody;
    hide Indented;
    match v
    case Str(s) => BlockCut(s, level, d); BlockIsNoTilde(s, d); BlockIsNoTilde(s, 0);
    case List(items) => ItemsCut(items, level, d);
    case Map(entries) => EntriesCut(entries, level, d);
    case _ =>
  }

  lemma {:induction false} EntriesCut(entries: seq<Entry>, level: nat, d: nat)
    requires FieldsOk(entries) && 0 < d <= TipParts(Map(entries)) && BlankEnd(DumpEntries(entries, level), d)
    ensures BackEntries(entries, d) == BackEntries(entries, 0) <==>
      TipParts(Map(entries)) == 1 || EndsInItem(Map(entries))
    decreases entries
  {
    hide Back, Below, FieldText, KeyOk, Wide, FirstPlain, Blank, HeadAt, Spaces, TipParts, BackEntries, EndsInItem;
    hide DumpEntries;
    SomeTip(entries);
    var e, line := entries[0], Pad(level) + FieldText(entries[0]);
    var below, rest := Below(e.value, level + 1), DumpEntries(entries[1..], level);
    FieldsFirst(entries);
    TipOfOne(entries);
    EntriesFirst(entries, level);
    assert DumpEntries(entries, level) == [line] + below + rest;
    CutFirst(entries, d);
    CutFirst(entries, 0);
    EndsInLast(entries);
    var own, more := if |entries| == 1 then d else 0, if |entries| == 1 then 0 else d;
    SameHead(Entry(e.key, Back(e.value, own)), Entry(e.key, Back(e.value, 0)),
             BackEntries(entries[1..], more), BackEntries(entries[1..], 0));
    if |entries| == 1 {
      assert rest == [] by { NoEntries(level); assert entries[1..] == []; }
      assert [line] + below + rest == [line] + below;
      TipBelow(e.value, level + 1);
      EndOfEnd([line], below, d);
      BelowCut(e.value, level + 1, d);
    } else {
      EntriesHead(entries[1..], level);
      TipInside(rest, TipParts(Map(entries[1..])));
      EndOfEnd([line] + below, rest, d);
      EntriesCut(entries[1..], level, d);
    }
  }

  lemma SameHead<T>(x: T, y: T, a: seq<T>, b: seq<T>)
    ensures [x] + a == [y] + b <==> x == y && a == b
  {
    if [x] + a == [y] + b {
      assert ([x] + a)[0] == x && ([y] + b)[0] == y && ([x] + a)[1..] == a && ([y] + b)[1..] == b;
    }
  }

  lemma SomeTip(entries: seq<Entry>)
    requires TipParts(Map(entries)) > 0
    ensures |entries| > 0
  {}

  lemma TipInside(lines: seq<string>, t: nat)
    requires HeadAt(lines, t)
    ensures t < |lines|
  {}

  lemma TipBelow(v: Value, level: nat)
    requires InClass(v)
    ensures TipParts(v) <= |Below(v, level)|
  {
    hide Below, TipParts, Ignorable, Wide, FirstPlain;
    BelowHead(v, level);
  }

  lemma CutFirst(entries: seq<Entry>, d: nat)
    requires |entries| > 0
    ensures BackEntries(entries, d) == [Entry(entries[0].key, Back(entries[0].value, if |entries| == 1 then d else 0))]
                                       + BackEntries(entries[1..], if |entries| == 1 then 0 else d)
  {
    hide Back, BackEntries;
    BackFirst(entries, d, if |entries| == 1 then d else 0);
  }

  lemma EndsInLast(entries: seq<Entry>)
    requires |entries| > 0
    ensures EndsInItem(Map(entries)) <==>
      if |entries| == 1 then EndsInItem(entries[0].value) else EndsInItem(Map(entries[1..]))
  {}

  lemma {:induction false} ItemsCut(items: seq<Value>, level: nat, d: nat)
    requires (forall i :: 0 <= i < |items| ==> InClass(items[i])) && 0 < d <= TipParts(List(items))
    requires BlankEnd(DumpItems(items, level), d)
    ensures BackItems(items, d) == BackItems(items, 0) <==> TipParts(List(items)) == 1 || EndsInItem(List(items))
    decreases items
  {
    hide Back, BackItem, DumpItem, Wide, FirstPlain, Blank, HeadAt, TipParts, EndsInItem;
    SomeItem(items);
    TipOfItems(items);
    var own := if |items| == 1 then d else 0;
    BackFirstItem(items, d, own);
    BackFirstItem(items, 0, 0);
    EndsInLastItem(items);
    SameHead(BackItem(items[0], own), BackItem(items[0], 0),
             BackItems(items[1..], if |items| == 1 then 0 else d), BackItems(items[1..], 0));
    if |items| == 1 {
      assert DumpItems(items[1..], level) == [] && DumpItems(items, level) == DumpItem(items[0], level);
      ItemCut(items[0], level, d);
    } else {
      ItemsHead(items[1..], level);
      TipInside(DumpItems(items[1..], level), TipParts(List(items[1..])));
      EndOfEnd(DumpItem(items[0], level), DumpItems(items[1..], level), d);
      ItemsCut(items[1..], level, d);
    }
  }

  lemma SomeItem(items: seq<Value>)
    requires TipParts(List(items)) > 0
    ensures |items| > 0
  {}

  lemma EndsInLastItem(items: seq<Value>)
    requires |items| > 0
    ensures EndsInItem(List(items)) <==>
      if |items| == 1 then items[0].Map? || EndsInItem(items[0]) else EndsInItem(List(items[1..]))
  {}

  lemma {:induction false} ItemCut(v: Value, level: nat, d: nat)
    requires InClass(v) && 0 < d <= TipParts(v) && BlankEnd(DumpItem(v, level), d)
    ensures BackItem(v, d) == BackItem(v, 0) <==> v.Map? || TipParts(v) == 1 || EndsInItem(v)
    decreases v, 2
  {
    hide Back, DumpItem, Wide, FirstPlain, Blank, HeadAt, TipParts, EndsInItem, Below, ItemText, DumpEntries, Gap;
    hide OwnLines;
    hide DumpNode, Spaces;
    ItemHead(v, level);
    TipInside(DumpItem(v, level), TipParts(v));
    ItemShape(v, level);
    var below := ItemBelow(v, level);
    EndOfEnd([Pad(level) + ItemText(v)], below, d);
    if v.Map? {
      SomeTip(v.entries) by { assert v == Map(v.entries); }
      var inner := DumpEntries(v.entries, level + 1);
      EntriesFirst(v.entries, level + 1);
      assert below == inner[1..];
      EndInside(inner, d);
      OwnLinesAt(v.entries, level + 1);
    } else {
      BelowOfItem(v, level);
      BelowCut(v, level + 1, d);
    }
  }

  lemma BelowOfItem(v: Value, level: nat)
    requires !v.Map? && TipParts(v) > 0
    ensures ItemBelow(v, level) == Below(v, level + 1)
  {}

  /** Blank lines at the end lie behind the first blank one. */
  lemma EndInside(lines: seq<string>, d: nat)
    requires |lines| > 0 && BlankEnd(lines[1..], d)
    ensures d <= Gap(lines)
  {
    hide Blank, Gap;
    if d > 0 {
      assert lines[|lines| - d] == lines[1..][|lines| - 1 - d];
      assert Blank(lines[|lines| - d]);
    }
  }

  /**
   A comment behind a printed value makes no difference exactly where it does not end in blank lines, or its
   last block is of one line, or the blank lines are those of a dictionary in a list, which has lost them
   already.
   */
  lemma CommentBehindExactly(v: Value, c: string)
    requires InClass(v) && !IsScalar(v) && Unbroken(v) && NoBreaks(c)
    ensures ParseYaml(DumpYaml(v) + "#" + c + "\n") == ParseYaml(DumpYaml(v)) <==>
      EndBlanks(DumpNode(v, 0)) == 0 || TipParts(v) == 1 || EndsInItem(v)
  {
    hide ParseYaml, DumpYaml, InClass, Back, Unbroken, TipParts, EndsInItem, DumpNode, EndBlanks, HeadAt;
    CommentBehind(v, c);
    ParseOfText(v);
    var d := EndBlanks(DumpNode(v, 0));
    if d > 0 {
      assert Wide(v) by { ClassIsWide(v); }
      NodeHead(v, 0);
      EndIsInTip(DumpNode(v, 0), TipParts(v), d);
      NodeIsBelow(v);
      BelowCut(v, 0, d);
    }
  }

  lemma NodeIsBelow(v: Value)
    requires !IsScalar(v) && TipParts(v) > 0
    ensures DumpNode(v, 0) == Below(v, 0)
  {}

  /** A dictionary whose last string ends in two line breaks: the comment keeps the second of them. */
  lemma CommentKeepsBlankLine()
    ensures var v := Map([Entry("a", Str("x\n\n"))]);
      && ParseYaml(DumpYaml(v) + "#\n") == Ok(v) && ParseYaml(DumpYaml(v)) == Ok(Map([Entry("a", Str("x\n"))]))
  {
    hide ParseYaml, Back, Faithful, Tight, EndBlanks, DumpNode, Join;
    var v := Map([Entry("a", Str("x\n\n"))]);
    SmallInClass();
    SmallShape();
    CommentKeepsEnd(v, "");
    assert DumpYaml(v) + "#" + "" + "\n" == DumpYaml(v) + "#\n";
    ParseOfText(v);
  }

  lemma SmallInClass()
    ensures InClass(Map([Entry("a", Str("x\n\n"))]))
  {
    hide IsPlain;
    SmallKey();
  }

  lemma SmallKey()
    ensures IsPlain("a")
  {
    hide Strip;
    StripId("a") by { AIsInk(); }
  }

  lemma AIsInk()
    ensures !IsSpace('a')
  {}

  lemma SmallParts()
    ensures Split(BlockBody("x\n\n"), '\n') == ["x", ""] && BlockForm("x\n\n") && EndsWithChar("x\n\n", '\n')
  {
    var s := "x\n\n";
    assert s[1] == '\n';
    assert BlockBody(s) == "x\n";
    SplitCons("x", "", '\n');
    EmptySplit();
    assert "x" + ['\n'] + "" == "x\n";
  }

  lemma SmallShape()
    ensures var v := Map([Entry("a", Str("x\n\n"))]);
      && Faithful(v) && Tight(v) && Unbroken(v) && EndBlanks(DumpNode(v, 0)) == 1
      && Back(v, 1) == Map([Entry("a", Str("x\n"))])
  {
    hide Split, BlockBody, RStrip, Spaces, FieldText;
    SmallParts();
    var e := Entry("a", Str("x\n\n"));
    var v := Map([e]);
    assert NoTrailing(["x", ""]) by { XIsInk(); }
    var below := Indented(["x", ""], 1);
    assert DumpEntries([], 0) == [] && [e][1..] == [];
    assert Below(e.value, 1) == below;
    assert DumpEntries([e], 0) == [Pad(0) + FieldText(e)] + below + [];
    assert DumpNode(v, 0) == [Pad(0) + FieldText(e)] + below;
    SmallEnd([Pad(0) + FieldText(e)], below);
    SmallBack();
    assert BackEntries([], 1) == [];
  }

  lemma XIsInk()
    ensures !IsSpace('x')
  {}

  lemma SmallEnd(head: seq<string>, below: seq<string>)
    requires |head| == 1 && below == Indented(["x", ""], 1)
    ensures EndBlanks(head + below) == 1
  {
    hide Spaces, IsSpace;
    var lines := head + below;
    assert lines[2] == Pad(1) + "" && lines[1] == Pad(1) + "x";
    BlankPadded(2, "");
    BlankPadded(2, "x");
    XIsInk();
    assert !IsSpace("x"[0]) && !Blank("x") && Blank("");
    assert lines[..2][1] == lines[1];
  }

  lemma SmallBack()
    ensures CutBlock("x\n\n", 1) == "x\n" && BlockForm("x\n\n")
  {
    hide Split, BlockBody, IsSpace;
    SmallParts();
    XIsInk();
    RStripId("x");
    assert ["x", ""][..1] == ["x"];
    assert RStripAll(["x"]) == ["x"];
    JoinOfOne("x");
  }
}
