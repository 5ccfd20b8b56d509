/** Comment lines in texts, and in what the printer of omg_cli/catalog_yaml.py wrote. */
module YamlCommented {
  import opened Text
  import opened Yaml
  import opened YamlScalars
  import opened YamlShape
  import opened YamlRoundTrip
  import opened YamlDocument
  import opened YamlComments

  // ---------- texts of whole lines ----------

  /** Empty, or ended by a newline. */
  predicate WholeLines(s: string) { s != "" ==> s[|s| - 1] == '\n' }

  lemma {:induction false} NormalizeWhole(front: string, behind: string)
    requires WholeLines(front)
    ensures NormalizeNewlines(front + behind) == NormalizeNewlines(front) + NormalizeNewlines(behind)
    ensures WholeLines(NormalizeNewlines(front)) && (NormalizeNewlines(front) == "" <==> front == "")
    decreases |front|
  {
    var all := front + behind;
    if front == "" {
      assert all == behind;
    } else if front[0] == '\r' {
      assert |front| > 1;
      var k := if front[1] == '\n' then 2 else 1;
      assert all[k..] == front[k..] + behind;
      NormalizeWhole(front[k..], behind);
      assert NormalizeNewlines(all) == ['\n'] + NormalizeNewlines(all[k..]);
    } else {
      assert all[1..] == front[1..] + behind;
      NormalizeWhole(front[1..], behind);
    }
  }

  /** The lines in front of the last newline. */
  function FrontLines(s: string): seq<string> {
    var parts := Split(s, '\n');
    parts[..|parts| - 1]
  }

  lemma {:induction false} SplitWhole(front: string, behind: string)
    requires WholeLines(front)
    ensures Split(front + behind, '\n') == FrontLines(front) + Split(behind, '\n')
    ensures Split(front, '\n') == FrontLines(front) + [""]
    decreases |front|
  {
    hide Split;
    SplitStep(front);
    SplitStep(front + behind);
    if front == "" {
      assert front + behind == behind;
    } else {
      assert (front + behind)[1..] == front[1..] + behind;
      SplitWhole(front[1..], behind);
      if front[0] != '\n' { NotOneLine(front[1..]); }
    }
  }

  lemma SplitStep(s: string)
    ensures s == "" ==> Split(s, '\n') == [""]
    ensures s != "" ==>
      var rest := Split(s[1..], '\n');
      Split(s, '\n') == if s[0] == '\n' then [""] + rest else [[s[0]] + rest[0]] + rest[1..]
  {}

  lemma {:induction false} NotOneLine(s: string)
    requires s != "" && WholeLines(s)
    ensures |Split(s, '\n')| > 1
  {
    if s[0] != '\n' { NotOneLine(s[1..]); }
  }

  lemma StripAppend(a: seq<string>, b: seq<string>)
    ensures RStripAll(a + b) == RStripAll(a) + RStripAll(b)
  {
    hide RStrip;
  }

  lemma {:induction false} DropAppend(a: seq<string>, b: seq<string>)
    requires DropBlankTail(b) != []
    ensures DropBlankTail(a + b) == a + DropBlankTail(b)
    decreases |b|
  {
    hide Strip;
    var all := a + b;
    if |b| > 0 && Strip(b[|b| - 1]) == "" {
      assert all[..|all| - 1] == a + b[..|b| - 1];
      DropAppend(a, b[..|b| - 1]);
    }
  }

  /** Behind a row with text only the tail is dropped. */
  lemma {:induction false} DropBehind(a: seq<string>, row: string, b: seq<string>)
    requires Strip(row) != ""
    ensures DropBlankTail(a + [row] + b) == a + [row] + DropBlankTail(b)
    decreases |b|
  {
    hide Strip;
    var all := a + [row] + b;
    if |b| > 0 && Strip(b[|b| - 1]) == "" {
      assert all[..|all| - 1] == a + [row] + b[..|b| - 1];
      DropBehind(a, row, b[..|b| - 1]);
    } else if |b| == 0 {
      assert all == a + [row] && all[|all| - 1] == row;
    }
  }

  // ---------- comments in texts ----------

  function Comment(indent: nat, c: string): string { Spaces(indent) + "#" + c + "\n" }

  lemma {:induction false} RStripKeeps(p: string, s: string)
    requires |p| > 0 && !IsSpace(p[|p| - 1])
    ensures p <= RStrip(p + s)
    decreases |s|
  {
    if |s| > 0 && IsSpace(s[|s| - 1]) {
      assert (p + s)[..|p + s| - 1] == p + s[..|s| - 1];
      RStripKeeps(p, s[..|s| - 1]);
    } else if |s| == 0 {
      assert p + s == p;
    }
  }

  /** The rows in front of a line, before anything is dropped. */
  function FrontRows(front: string): seq<string> { RStripAll(FrontLines(NormalizeNewlines(front))) }

  function BehindRows(behind: string): seq<string> { RStripAll(Split(NormalizeNewlines(behind), '\n')) }

  lemma RowsOfTwo(front: string, behind: string)
    requires WholeLines(front)
    ensures Rows(front + behind) == DropBlankTail(FrontRows(front) + BehindRows(behind))
  {
    hide NormalizeNewlines, Split, RStripAll, DropBlankTail, FrontLines;
    NormalizeWhole(front, behind);
    SplitWhole(NormalizeNewlines(front), NormalizeNewlines(behind));
    StripAppend(FrontLines(NormalizeNewlines(front)), Split(NormalizeNewlines(behind), '\n'));
  }

  /** With a comment in between nothing in front of it is dropped. */
  lemma RowsWithComment(front: string, indent: nat, c: string, behind: string) returns (row: string)
    requires WholeLines(front) && NoBreaks(c)
    ensures Rows(front + Comment(indent, c) + behind)
         == FrontRows(front) + [row] + DropBlankTail(BehindRows(behind))
    ensures CommentRow(row, indent)
  {
    hide NormalizeNewlines, Split, RStrip, RStripAll, DropBlankTail, FrontLines, IsSpace;
    var head := Spaces(indent) + "#";
    var line := head + c;
    row := RStrip(line);
    HashIsInk();
    RStripKeeps(head, c);
    HashIndent(row, indent);
    assert front + Comment(indent, c) + behind == front + (Comment(indent, c) + behind);
    RowsOfTwo(front, Comment(indent, c) + behind);
    NormalizeWhole(Comment(indent, c), behind);
    assert NormalizeNewlines(Comment(indent, c)) == Comment(indent, c) by {
      assert '\r' !in Comment(indent, c);
      NormalizeNothing(Comment(indent, c));
    }
    var rest := NormalizeNewlines(behind);
    assert Comment(indent, c) + rest == line + ['\n'] + rest;
    SplitCons(line, rest, '\n');
    StripAppend([line], Split(rest, '\n'));
    assert RStripAll([line]) == [row];
    assert BehindRows(Comment(indent, c) + behind) == [row] + BehindRows(behind);
    assert FrontRows(front) + ([row] + BehindRows(behind)) == FrontRows(front) + [row] + BehindRows(behind);
    DropBehind(FrontRows(front), row, BehindRows(behind));
  }

  lemma NothingInFront()
    ensures FrontRows("") == []
  {}

  /** A comment in front of everything, indented or not, is skipped: whatever the text. */
  lemma LeadingComment(indent: nat, c: string, text: string)
    requires NoBreaks(c)
    ensures ParseYaml(Comment(indent, c) + text) == ParseYaml(text)
  {
    hide ParseYaml, Rows, FrontRows, BehindRows, DropBlankTail, Comment, ParseRows, CommentRow;
    var row := RowsWithComment("", indent, c, text);
    NothingInFront();
    assert "" + Comment(indent, c) + text == Comment(indent, c) + text;
    RowsOfTwo("", text);
    assert "" + text == text;
    assert [] + BehindRows(text) == BehindRows(text);
    var rows := Rows(text);
    assert rows == DropBlankTail(BehindRows(text));
    var more := [] + [row] + rows;
    assert more[1..] == rows && CommentRow(more[0], indent);
    CommentRows(more, rows, 0);
    ParseIsRows(text);
    ParseIsRows(Comment(indent, c) + text);
  }

  /** The first row of a text whose first character is neither white space nor a line break. */
  lemma InkInFront(text: string)
    requires text != "" && !IsSpace(text[0])
    ensures var rows := DropBlankTail(BehindRows(text));
      |rows| > 0 && |rows[0]| > 0 && rows[0][0] == text[0]
  {
    hide DropBlankTail, IsSpace, RStrip;
    var t := NormalizeNewlines(text);
    assert IsSpace('\r') && IsSpace('\n') by { ReturnIsSpace(); }
    assert t[0] == text[0];
    var parts := Split(t, '\n');
    assert parts[0] != "" && parts[0][0] == t[0];
    RStripKeeps([parts[0][0]], parts[0][1..]);
    assert parts[0] == [parts[0][0]] + parts[0][1..];
    KeepsInk(RStripAll(parts));
  }

  lemma ReturnIsSpace()
    ensures IsSpace('\r') && IsSpace('\n')
  {}

  /** A comment between two lines, the second of which begins with its text, is skipped: whatever stands in front. */
  lemma CommentBetween(front: string, c: string, behind: string)
    requires WholeLines(front) && NoBreaks(c) && behind != "" && !IsSpace(behind[0])
    ensures ParseYaml(front + "#" + c + "\n" + behind) == ParseYaml(front + behind)
  {
    hide ParseYaml, Rows, FrontRows, BehindRows, DropBlankTail, ParseRows, IsSpace;
    if front == "" {
      LeadingComment(0, c, behind);
      assert Spaces(0) + "#" + c + "\n" == "#" + c + "\n";
      assert front + "#" + c + "\n" + behind == Comment(0, c) + behind && front + behind == behind;
    } else {
      var row := RowsWithComment(front, 0, c, behind);
      assert front + Comment(0, c) + behind == front + "#" + c + "\n" + behind;
      InkInFront(behind);
      RowsOfTwo(front, behind);
      DropAppend(FrontRows(front), BehindRows(behind));
      InsertedAt(FrontRows(front), row, DropBlankTail(BehindRows(behind)));
      CommentRows(FrontRows(front) + [row] + DropBlankTail(BehindRows(behind)),
                  FrontRows(front) + DropBlankTail(BehindRows(behind)), |FrontRows(front)|);
      ParseIsRows(front + "#" + c + "\n" + behind);
      ParseIsRows(front + behind);
    }
  }

  lemma InsertedAt(front: seq<string>, row: string, behind: seq<string>)
    requires CommentRow(row, 0) && (|behind| > 0 ==> |behind[0]| > 0 && !IsSpace(behind[0][0]))
    ensures Inserted(front + [row] + behind, front + behind, |front|)
  {
    hide IsSpace, CommentRow;
    var more, rows, p := front + [row] + behind, front + behind, |front|;
    assert more[..p] == front == rows[..p];
    assert more[p + 1..] == behind == rows[p..];
  }

  lemma NothingBehind()
    ensures DropBlankTail(BehindRows("")) == []
  {
    assert Strip("") == "" && RStrip("") == "";
    assert BehindRows("") == [""];
    assert [""][..0] == [];
  }

  /** A comment at the end: what is in front is read with all its lines, also blank ones. */
  lemma CommentAtEnd(front: string, c: string)
    requires WholeLines(front) && NoBreaks(c)
    ensures ParseYaml(front + "#" + c + "\n") == ParseRows(FrontRows(front))
  {
    hide ParseYaml, Rows, FrontRows, BehindRows, DropBlankTail, ParseRows, CommentRow;
    var row := RowsWithComment(front, 0, c, "");
    NothingBehind();
    assert front + Comment(0, c) + "" == front + "#" + c + "\n";
    var rows := FrontRows(front);
    assert FrontRows(front) + [row] + [] == rows + [row] && rows + [] == rows;
    InsertedAt(rows, row, []);
    CommentRows(rows + [row], rows, |rows|);
    ParseIsRows(front + "#" + c + "\n");
  }

  /** Behind a line with text a comment at the end is skipped. */
  lemma TrailingComment(front: string, line: string, c: string)
    requires WholeLines(front) && NoBreaks(line) && !Blank(line) && NoBreaks(c)
    ensures ParseYaml(front + line + "\n" + "#" + c + "\n") == ParseYaml(front + line + "\n")
  {
    hide ParseYaml, Rows, ParseRows, FrontRows, NoBreaks, Blank;
    CommentAtEnd(front + line + "\n", c);
    ParseIsRows(front + line + "\n");
    LastRow(front, line);
  }

  /** The last line of a text, whose rows end with it. */
  lemma LastRow(front: string, line: string)
    requires WholeLines(front) && NoBreaks(line) && !Blank(line)
    ensures Rows(front + line + "\n") == FrontRows(front + line + "\n")
  {
    hide NormalizeNewlines, Split, RStrip, Blank, Strip, RStripAll, FrontLines, DropBlankTail;
    LastSplit(front, line);
    var lines := FrontLines(NormalizeNewlines(front));
    StripAppend(lines + [line], [""]);
    StripAppend(lines, [line]);
    RStripProps(line);
    StripProps(RStrip(line));
    BlankAfter(line);
    assert RStripAll([line]) == [RStrip(line)];
    DropBehind(RStripAll(lines), RStrip(line), RStripAll([""]));
    OneEmptyRow();
    assert RStripAll(lines) + [RStrip(line)] + [] == RStripAll(lines) + [RStrip(line)];
  }

  lemma LastSplit(front: string, line: string)
    requires WholeLines(front) && NoBreaks(line)
    ensures var t := NormalizeNewlines(front + line + "\n");
      && FrontLines(t) == FrontLines(NormalizeNewlines(front)) + [line]
      && Split(t, '\n') == FrontLines(NormalizeNewlines(front)) + [line] + [""]
  {
    hide NormalizeNewlines, Split;
    assert front + line + "\n" == front + (line + "\n");
    NormalizeWhole(front, line + "\n");
    assert '\r' !in line + "\n";
    NormalizeNothing(line + "\n");
    var f := NormalizeNewlines(front);
    SplitWhole(f, line + "\n");
    SplitCons(line, "", '\n');
    assert line + ['\n'] + "" == line + "\n";
    EmptySplit();
    assert FrontLines(f) + ([line] + [""]) == FrontLines(f) + [line] + [""];
  }

  lemma EmptySplit()
    ensures Split("", '\n') == [""]
  {}

  lemma OneEmptyRow()
    ensures DropBlankTail(RStripAll([""])) == []
  {
    assert RStripAll([""]) == [""] && [""][..0] == [];
  }
}
