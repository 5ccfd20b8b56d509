/**
 The forms omg_cli/catalog_yaml.py reads that its printer does not write: quoted texts with every escape, keys
 in quotes, line endings and blank ends; and how the printer chooses between its own.
 */
module YamlForms {
  import opened Text
  import opened Yaml
  import opened YamlScalars
  import opened YamlShape
  import opened YamlDocument
  import opened YamlComments
  import opened YamlCommented

  // ---------- quoted texts ----------

  /** A text between single quotes: each of its own is doubled. */
  function Doubled(s: string): string {
    if |s| == 0 then "" else (if s[0] == '\'' then "''" else [s[0]]) + Doubled(s[1..])
  }

  /** A text between double quotes: line breaks, quotes and backslashes are escaped. */
  function Spelled(s: string): string {
    if |s| == 0 then "" else SpelledChar(s[0]) + Spelled(s[1..])
  }

  function SpelledChar(c: char): string {
    if c == '\n' then "\\n" else if c == '"' then "\\\"" else if c == '\\' then "\\\\" else [c]
  }

  lemma CharBack(c: char, rest: string)
    ensures Unescape(SpelledChar(c) + rest) == Prepend(c, Unescape(rest))
  {
    var all := SpelledChar(c) + rest;
    if c in {'\n', '"', '\\'} {
      assert all[2..] == rest;
    } else {
      assert all[1..] == rest;
    }
  }

  lemma {:induction false} DoubledBack(s: string)
    ensures ReplaceDoubledQuotes(Doubled(s)) == s
    ensures |Doubled(s)| > 0 && Doubled(s)[0] == '\'' ==> |Doubled(s)| > 1 && Doubled(s)[1] == '\''
  {
    if |s| > 0 {
      DoubledBack(s[1..]);
      var rest := Doubled(s[1..]);
      if s[0] == '\'' {
        assert Doubled(s)[2..] == rest;
      } else {
        assert Doubled(s)[1..] == rest;
        assert Doubled(s)[0] == s[0] && !("''" <= Doubled(s));
      }
      assert [s[0]] + s[1..] == s;
    }
  }

  lemma {:induction false} SpelledBack(s: string, tail: string)
    ensures Unescape(Spelled(s) + tail) == if Unescape(tail).Ok? then Ok(s + Unescape(tail).value) else Unescape(tail)
  {
    hide Unescape, SpelledChar;
    if |s| == 0 {
      assert Spelled(s) + tail == tail;
      if Unescape(tail).Ok? { assert s + Unescape(tail).value == Unescape(tail).value; }
    } else {
      SpelledBack(s[1..], tail);
      CharBack(s[0], Spelled(s[1..]) + tail);
      assert Spelled(s) + tail == SpelledChar(s[0]) + (Spelled(s[1..]) + tail);
      if Unescape(tail).Ok? { assert [s[0]] + (s[1..] + Unescape(tail).value) == s + Unescape(tail).value; }
    }
  }

  /** The text between two quotes, and that nothing else is seen in it. */
  lemma Between(q: char, inner: string)
    requires q == '"' || q == '\''
    ensures var t := [q] + inner + [q];
      && Strip(t) == t && |t| >= 2 && t[0] == q && t[|t| - 1] == q && t[1..|t| - 1] == inner && !AllDigits(t)
      && t !in {"{}", "[]", "null", "~", "true", "false"}
  {
    hide IsSpace;
    var t := [q] + inner + [q];
    QuotesAreInk();
    StripId(t);
    assert !IsDigit(t[0]);
  }

  lemma QuotesAreInk()
    ensures !IsSpace('"') && !IsSpace('\'')
  {}

  /** Any text comes back from single quotes, and from double quotes. */
  lemma QuotedForms(s: string)
    ensures ParseScalar("'" + Doubled(s) + "'") == Ok(Str(s))
    ensures ParseScalar("\"" + Spelled(s) + "\"") == Ok(Str(s))
  {
    hide Strip, Unescape, ReplaceDoubledQuotes, ParseDigits, AllDigits, Doubled, Spelled;
    Between('\'', Doubled(s));
    DoubledBack(s);
    Between('"', Spelled(s));
    SpelledBack(s, "");
    NothingUnescaped();
    assert Spelled(s) + "" == Spelled(s) && s + "" == s;
  }

  lemma NothingUnescaped()
    ensures Unescape("") == Ok("")
  {}

  /** Any other escape is refused, and so is a backslash at the end. */
  lemma BadEscapes(s: string, c: char, rest: string)
    ensures c !in {'n', '"', '\\'} ==> ParseScalar("\"" + Spelled(s) + ['\\', c] + rest + "\"") == Err(BadEscape)
    ensures ParseScalar("\"" + Spelled(s) + "\\" + "\"") == Err(DanglingEscape)
  {
    hide Strip, Unescape, ReplaceDoubledQuotes, ParseDigits, AllDigits, Spelled;
    var inner := Spelled(s) + (['\\', c] + rest);
    Between('"', inner);
    assert "\"" + Spelled(s) + ['\\', c] + rest + "\"" == ['"'] + inner + ['"'];
    SpelledBack(s, ['\\', c] + rest);
    Between('"', Spelled(s) + "\\");
    assert "\"" + Spelled(s) + "\\" + "\"" == ['"'] + (Spelled(s) + "\\") + ['"'];
    SpelledBack(s, "\\");
    OneEscape(c, rest);
  }

  lemma OneEscape(c: char, rest: string)
    ensures c !in {'n', '"', '\\'} ==> Unescape(['\\', c] + rest) == Err(BadEscape)
    ensures Unescape("\\") == Err(DanglingEscape)
  {}

  /** The words with a meaning of their own, and every other text that is neither quoted nor a number. */
  lemma BareForms(t: string)
    ensures ParseScalar("null") == Ok(Null) && ParseScalar("~") == Ok(Null)
    ensures ParseScalar("true") == Ok(Bool(true)) && ParseScalar("false") == Ok(Bool(false))
    ensures ParseScalar("{}") == Ok(Map([])) && ParseScalar("[]") == Ok(List([]))
    ensures Strip(t) == t && t !in {"null", "~", "true", "false", "{}", "[]"} && !AllDigits(t)
      && !(|t| > 1 && t[0] == '-' && AllDigits(t[1..]))
      && !(|t| > 1 && t[0] == t[|t| - 1] && t[0] in {'"', '\''})
      ==> ParseScalar(t) == Ok(Str(t))
  {
    hide Strip, Unescape, ReplaceDoubledQuotes, ParseDigits, IsSpace;
    WordsAreInk();
    StripId("null");
    StripId("~");
    StripId("true");
    StripId("false");
    StripId("{}");
    StripId("[]");
    NoDigits();
  }

  lemma NoDigits()
    ensures !AllDigits("")
  {}

  lemma WordsAreInk()
    ensures forall c :: c in "nl~tefals{}[]u" ==> !IsSpace(c)
    ensures !IsSpace("null"[0]) && !IsSpace("null"[3]) && !IsSpace("true"[0]) && !IsSpace("true"[3])
    ensures !IsSpace("false"[0]) && !IsSpace("false"[4]) && !IsSpace("~"[0])
  {}

  /** A key: not empty, its text where it is quoted, and as it stands where it is not. */
  lemma KeyForms(s: string)
    ensures ParseKey("") == Err(EmptyKey)
    ensures ParseKey("'" + Doubled(s) + "'") == Ok(s) && ParseKey("\"" + Spelled(s) + "\"") == Ok(s)
    ensures s != "" && s[0] !in {'"', '\''} ==> ParseKey(s) == Ok(s)
  {
    hide ParseScalar, Doubled, Spelled;
    QuotedForms(s);
    assert ("'" + Doubled(s) + "'")[0] == '\'' && ("\"" + Spelled(s) + "\"")[0] == '"';
  }

  // ---------- turns of the list loop, and nodes ----------

  /** What the list loop makes of a line: skipped, its end, an error, a bare dash, or a dash with its text. */
  datatype ListLine = Skip | Stop | Refused(error: Error) | Bare | Dash(body: string)

  function ReadListLine(line: string, indent: nat): ListLine {
    var current := IndentOf(line);
    var stripped := line[current..];
    if Ignorable(line) then Skip
    else if current < indent then Stop
    else if current > indent then Refused(UnexpectedListIndent)
    else if stripped == "" || stripped[0] != '-' then Stop
    else if stripped == "-" then Bare
    else if stripped[1] != ' ' then Refused(MalformedListItem)
    else Dash(stripped[2..])
  }

  /** One turn of the list loop: a bare dash takes the node below it, or null at the end of the text. */
  lemma ListTurn(rows: seq<string>, i: nat, indent: nat, out: seq<Value>)
    requires i < |rows|
    ensures var line := ReadListLine(rows[i], indent);
      ListLoop(rows, i, indent, out) ==
        if line.Skip? then ListLoop(rows, i + 1, indent, out)
        else if line.Stop? then Done(out, i)
        else if line.Refused? then Fail(line.error)
        else if line.Bare? then OnBareDash(rows, i, indent, out)
        else OnDash(rows, i, indent, out, line.body)
  {
    hide ParseNode, MapLoop, ParseBlock, ParseScalar, Strip, IndentOf, Ignorable, SkipIgnorable, LooksLikeMap, Ink;
    hide NestedEnd, NestedRows;
    var stripped := rows[i][IndentOf(rows[i])..];
    assert "- " <= stripped <==> |stripped| >= 2 && stripped[0] == '-' && stripped[1] == ' ';
    assert "-" <= stripped <==> stripped != "" && stripped[0] == '-';
    if |stripped| >= 2 {
      NestedLength(rows, i, indent, stripped[2..], NestedEnd(rows, i + 1, indent));
    }
  }

  lemma NestedLength(rows: seq<string>, i: nat, indent: nat, body: string, end: nat)
    requires i < end <= |rows|
    ensures |NestedRows(rows, i, indent, body, end)| == end - i
  {}

  function OnBareDash(rows: seq<string>, i: nat, indent: nat, out: seq<Value>): Parsed<seq<Value>>
    requires i < |rows|
  {
    var look := SkipIgnorable(rows, i + 1);
    if look == |rows| then ListLoop(rows, i + 1, indent, out + [Null])
    else
      match ParseNode(rows, look, indent + 2)
      case Fail(e) => Fail(e)
      case Done(v, next) => ListLoop(rows, next, indent, out + [v])
  }

  /** A block, a dictionary that takes up all the deeper rows, or a scalar. */
  function OnDash(rows: seq<string>, i: nat, indent: nat, out: seq<Value>, body: string): Parsed<seq<Value>>
    requires i < |rows|
  {
    if body in {"|", "|-"} then
      var (text, next) := ParseBlock(rows, i + 1, indent + 2, body);
      ListLoop(rows, next, indent, out + [Str(text)])
    else if LooksLikeMap(body) then
      var end := NestedEnd(rows, i + 1, indent);
      match MapLoop(NestedRows(rows, i, indent, body, end), 0, indent + 2, [])
      case Fail(e) => Fail(e)
      case Done(entries, consumed) =>
        if consumed == end - i then ListLoop(rows, end, indent, out + [Map(entries)]) else Fail(MalformedListMapping)
    else
      match ParseScalar(body)
      case Err(e) => Fail(e)
      case Ok(v) => ListLoop(rows, i + 1, indent, out + [v])
  }

  /** A dictionary in the making: a colon, and neither a quote nor a bar in front. */
  lemma MapLooksExactly(s: string)
    ensures LooksLikeMap(s) <==> ':' in s && s[0] !in {'\'', '"', '|'}
  {}

  /** What a node is by its first line. */
  lemma NodeForms(rows: seq<string>, i: nat, minIndent: nat)
    requires i < |rows|
    ensures var indent := IndentOf(rows[i]);
      var text, r := rows[i][indent..], ParseNode(rows, i, minIndent);
      && (indent < minIndent ==> r == Fail(IndentUnderflow))
      && (indent >= minIndent ==>
            && (text == "{}" ==> r == Done(Map([]), i + 1))
            && (text == "[]" ==> r == Done(List([]), i + 1))
            && (text != "" && text[0] == '-' ==>
                  var items := ListLoop(rows, i, indent, []);
                  r == if items.Fail? then Fail(items.error) else Done(List(items.value), items.next))
            && (text !in {"{}", "[]"} && text != "" && text[0] !in {'-', '\'', '"', '|'} && ':' in text ==>
                  var entries := MapLoop(rows, i, indent, []);
                  r == if entries.Fail? then Fail(entries.error) else Done(Map(entries.value), entries.next))
            && (text !in {"{}", "[]"}
                && (text == "" || (text[0] != '-' && (':' !in text || text[0] in {'\'', '"', '|'})))
                ==> r == if ParseScalar(text).Ok? then Done(ParseScalar(text).value, i + 1)
                         else Fail(ParseScalar(text).error)))
  {
    hide ListLoop, MapLoop, ParseScalar, IndentOf, Ink;
  }

  // ---------- line ends ----------

  /** The lines put together with any of the three line ends. */
  function JoinBy(lines: seq<string>, end: string): string {
    if |lines| == 0 then "" else lines[0] + end + JoinBy(lines[1..], end)
  }

  lemma {:induction false} EndsNormalize(lines: seq<string>, end: string)
    requires end in {"\n", "\r\n", "\r"} && forall i :: 0 <= i < |lines| ==> NoBreaks(lines[i])
    ensures NormalizeNewlines(JoinBy(lines, end)) == JoinBy(lines, "\n")
  {
    if |lines| > 0 {
      EndsNormalize(lines[1..], end);
      OneEnd(lines[0], end, JoinBy(lines[1..], end));
      if end == "\r" { NoNewlineFirst(lines[1..]); }
    }
  }

  /** Lines that end in a lone carriage return do not begin with a newline. */
  lemma NoNewlineFirst(lines: seq<string>)
    requires forall i :: 0 <= i < |lines| ==> NoBreaks(lines[i])
    ensures var t := JoinBy(lines, "\r"); t == "" || t[0] != '\n'
  {
    if |lines| > 0 && lines[0] != "" { assert JoinBy(lines, "\r")[0] == lines[0][0]; }
  }

  lemma {:induction false} OneEnd(line: string, end: string, rest: string)
    requires NoBreaks(line) && end in {"\n", "\r\n", "\r"}
    ensures end != "\r" || rest == "" || rest[0] != '\n' ==>
      NormalizeNewlines(line + end + rest) == line + "\n" + NormalizeNewlines(rest)
  {
    var all := line + end + rest;
    if line == "" {
      assert all == end + rest;
      if end == "\r\n" { assert all[2..] == rest; } else { assert all[1..] == rest; }
    } else {
      assert all[1..] == line[1..] + end + rest;
      OneEnd(line[1..], end, rest);
      assert [line[0]] + (line[1..] + "\n" + NormalizeNewlines(rest)) == line + "\n" + NormalizeNewlines(rest);
    }
  }

  /** Which of the three line ends a text has makes no difference. */
  lemma LineEndsDoNotMatter(lines: seq<string>, end: string)
    requires end in {"\n", "\r\n", "\r"} && forall i :: 0 <= i < |lines| ==> NoBreaks(lines[i])
    ensures ParseYaml(JoinBy(lines, end)) == ParseYaml(JoinBy(lines, "\n"))
  {
    hide ParseRows, Split, DropBlankTail, RStripAll;
    EndsNormalize(lines, end);
    EndsNormalize(lines, "\n");
    ParseIsRows(JoinBy(lines, end));
    ParseIsRows(JoinBy(lines, "\n"));
  }

  /** Nor do white space at the end of a line, and blank lines at the end. */
  lemma TrailingSpace(front: string, line: string, space: string, behind: string)
    requires WholeLines(front) && NoBreaks(line) && NoBreaks(space) && Blank(space)
    ensures ParseYaml(front + line + space + "\n" + behind) == ParseYaml(front + line + "\n" + behind)
  {
    hide ParseRows, Rows, RStripAll, FrontRows, BehindRows, Blank, NoBreaks;
    var a, b := line + space + "\n" + behind, line + "\n" + behind;
    assert front + line + space + "\n" + behind == front + a && front + line + "\n" + behind == front + b;
    RowsOfTwo(front, a);
    RowsOfTwo(front, b);
    SameBehind(line, space, behind);
    ParseIsRows(front + a);
    ParseIsRows(front + b);
  }

  lemma SameBehind(line: string, space: string, behind: string)
    requires NoBreaks(line) && NoBreaks(space) && Blank(space)
    ensures BehindRows(line + space + "\n" + behind) == BehindRows(line + "\n" + behind)
  {
    hide NormalizeNewlines, Split, RStrip, Blank;
    FirstBehind(line + space, behind);
    FirstBehind(line, behind);
    RStripSpace(line, space);
  }

  lemma FirstBehind(line: string, behind: string)
    requires NoBreaks(line)
    ensures BehindRows(line + "\n" + behind) == [RStrip(line)] + BehindRows(behind)
  {
    hide NormalizeNewlines, Split, RStrip;
    NormalizeWhole(line + "\n", behind);
    assert '\r' !in line + "\n";
    NormalizeNothing(line + "\n");
    var rest := NormalizeNewlines(behind);
    assert line + "\n" + rest == line + ['\n'] + rest;
    SplitCons(line, rest, '\n');
  }

  lemma {:induction false} RStripSpace(line: string, space: string)
    requires Blank(space)
    ensures RStrip(line + space) == RStrip(line)
    decreases |space|
  {
    if |space| > 0 {
      assert (line + space)[..|line + space| - 1] == line + space[..|space| - 1];
      RStripSpace(line, space[..|space| - 1]);
    } else {
      assert line + space == line;
    }
  }

  lemma BlankEnds(front: string, line: string)
    requires WholeLines(front) && NoBreaks(line) && Blank(line)
    ensures ParseYaml(front + line + "\n") == ParseYaml(front)
  {
    hide ParseRows, RStripAll, FrontRows, BehindRows, Blank, NoBreaks, DropBlankTail;
    assert front + line + "\n" == front + (line + "\n") && front + "" == front;
    RowsOfTwo(front, line + "\n");
    RowsOfTwo(front, "");
    BlankBehind(line);
    DropTwo(FrontRows(front));
    ParseIsRows(front + line + "\n");
    ParseIsRows(front);
  }

  lemma BlankBehind(line: string)
    requires NoBreaks(line) && Blank(line)
    ensures BehindRows(line + "\n") == ["", ""] && BehindRows("") == [""]
  {
    hide NormalizeNewlines, Split, RStrip, Blank;
    FirstBehind(line, "");
    assert line + "\n" + "" == line + "\n";
    RStripProps(line);
    NothingRow();
  }

  lemma NothingRow()
    ensures BehindRows("") == [""]
  {
    assert RStrip("") == "";
  }

  lemma DropTwo(rows: seq<string>)
    ensures DropBlankTail(rows + ["", ""]) == DropBlankTail(rows) == DropBlankTail(rows + [""])
  {
    assert Strip("") == "";
    assert (rows + ["", ""])[..|rows| + 1] == rows + [""] && (rows + [""])[..|rows|] == rows;
  }

  // ---------- what the printer chooses ----------

  /** A text is printed as it stands only where none of its characters could be read as anything else. */
  lemma PlainExactly(s: string)
    ensures DumpText(s) == s <==>
      && s != "" && !IsSpace(s[0]) && !IsSpace(s[|s| - 1]) && s[0] !in {'-', '?'} && !('0' <= s[0] <= '9')
      && Lower(s) !in {"true", "false", "null", "yes", "no", "on", "off"}
      && forall c :: c in s ==>
           c !in {'[', ']', '{', '}', ',', ':', '&', '*', '!', '|', '>', '\'', '"', '%', '@', '`', '\t', '#'}
  {
    hide Lower, IsSpace, Strip;
    var marks := "[]{},:&*!|>'\"%@`\t#";
    assert forall c :: c in marks <==>
      c in {'[', ']', '{', '}', ',', ':', '&', '*', '!', '|', '>', '\'', '"', '%', '@', '`', '\t', '#'};
    QuoteIsLonger(s);
    if s != "" {
      if Strip(s) == s { StripFixpoint(s); }
      if !IsSpace(s[0]) && !IsSpace(s[|s| - 1]) { StripId(s); }
    }
    assert forall i :: 0 <= i < |s| ==> s[i] in s;
  }

  lemma {:induction false} EscapeIsNotShorter(s: string)
    ensures |Escape(s)| >= |s|
  {
    if |s| > 0 { EscapeIsNotShorter(s[1..]); }
  }

  lemma QuoteIsLonger(s: string)
    ensures Quote(s) != s
  {
    EscapeIsNotShorter(s);
  }

  /** A string of a field is printed as a block exactly where it has a line break or more than 120 characters. */
  lemma BlockExactly(s: string)
    ensures (Tail(Str(s)) == " |" || Tail(Str(s)) == " |-") <==>
      (exists i :: 0 <= i < |s| && s[i] == '\n') || |s| >= 121
    ensures Tail(Str(s)) == " |" <==> s != "" && s[|s| - 1] == '\n'
  {
    hide IsPlain, Escape, DumpText;
    NoBar(s);
    assert '\n' in s <==> exists i :: 0 <= i < |s| && s[i] == '\n';
    var tail := Tail(Str(s));
    if BlockForm(s) {
      assert tail == " " + Chomp(s);
      assert " " + "|" == " |" && " " + "|-" == " |-" && |" |"| == 2 && |" |-"| == 3;
    } else {
      assert tail == " " + DumpText(s);
      assert tail[1..] == DumpText(s);
      assert " |"[1..] == "|" && " |-"[1..] == "|-";
    }
  }

  lemma NoBar(s: string)
    ensures DumpText(s) != "|" && DumpText(s) != "|-"
  {
    hide Strip, Lower, Escape;
    assert Forbidden('|');
    if IsPlain(s) {
      assert s[0] != '|';
    } else {
      assert DumpText(s)[0] == '"';
    }
  }
}
