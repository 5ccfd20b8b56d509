/**
 The YAML subset of omg_cli/catalog_yaml.py as functions: what the printer writes and what the
 line parser reads.  A dictionary is its list of entries in insertion order.  Error messages and
 line numbers are reduced to the kind of error.
 */
module Yaml {
  import opened Text

  datatype Value =
    | Null
    | Bool(b: bool)
    | Int(n: int)
    | Str(s: string)
    | List(items: seq<Value>)
    | Map(entries: seq<Entry>)

  datatype Entry = Entry(key: string, value: Value)

  datatype Error =
    | EmptyDocument | IndentUnderflow | UnexpectedIndent | ExpectedMapping | EmptyKey | KeyNotString
    | DuplicateKey | UnexpectedListIndent | MalformedListItem | MalformedListMapping
    | BadEscape | DanglingEscape | UnexpectedContent

  datatype Result<+T> = Ok(value: T) | Err(error: Error)

  /** A parse of some rows: the value and the index of the first row not consumed. */
  datatype Parsed<+T> = Done(value: T, next: nat) | Fail(error: Error)

  predicate HasKey(entries: seq<Entry>, key: string) {
    exists i :: 0 <= i < |entries| && entries[i].key == key
  }

  // ---------- printer ----------

  predicate Forbidden(c: char) {
    c in "[]{},:&*!|>'\"%@`\t#"
  }

  function LowerChar(c: char): char {
    if 'A' <= c <= 'Z' then c - 'A' + 'a' else c
  }

  function Lower(s: string): string {
    seq(|s|, i requires 0 <= i < |s| => LowerChar(s[i]))
  }

  predicate Reserved(s: string) {
    s in ["true", "false", "null", "yes", "no", "on", "off"]
  }

  /** `_is_plain`; its last test (": " or " #" inside) follows from the forbidden characters. */
  predicate IsPlain(s: string) {
    && s != ""
    && Strip(s) == s
    && !Reserved(Lower(s))
    && s[0] !in "-?:"
    && !IsDigit(s[0])
    && forall i :: 0 <= i < |s| ==> !Forbidden(s[i])
  }

  function Escape(s: string): string {
    if |s| == 0 then ""
    else (if s[0] == '\\' then "\\\\" else if s[0] == '"' then "\\\"" else [s[0]]) + Escape(s[1..])
  }

  function Quote(s: string): string { "\"" + Escape(s) + "\"" }

  function DumpText(s: string): string {
    if IsPlain(s) then s else Quote(s)
  }

  predicate IsScalar(v: Value) { !v.List? && !v.Map? }

  function DumpScalar(v: Value): string
    requires IsScalar(v)
  {
    match v
    case Null => "null"
    case Bool(b) => if b then "true" else "false"
    case Int(n) => IntToString(n)
    case Str(s) => DumpText(s)
  }

  predicate BlockForm(s: string) { '\n' in s || |s| > 120 }

  function Chomp(s: string): string { if EndsWithChar(s, '\n') then "|" else "|-" }

  function BlockBody(s: string): string { if EndsWithChar(s, '\n') then s[..|s| - 1] else s }

  function Indented(parts: seq<string>, level: nat): (lines: seq<string>)
    ensures |lines| == |parts|
    ensures forall i :: 0 <= i < |parts| ==> lines[i] == Pad(level) + parts[i]
  {
    seq(|parts|, i requires 0 <= i < |parts| => Pad(level) + parts[i])
  }

  function Pad(level: nat): string { Spaces(2 * level) }

  /** What follows the colon on the line of a field. */
  function Tail(v: Value): string {
    match v
    case Map(entries) => if |entries| == 0 then " {}" else ""
    case List(items) => if |items| == 0 then " []" else ""
    case Str(s) => " " + (if BlockForm(s) then Chomp(s) else DumpText(s))
    case _ => " " + DumpScalar(v)
  }

  /** The lines below the first line of a field or of an item that is no dictionary. */
  function Below(v: Value, level: nat): seq<string>
    decreases v, 0
  {
    match v
    case Map(entries) => DumpEntries(entries, level)
    case List(items) => DumpItems(items, level)
    case Str(s) => if BlockForm(s) then Indented(Split(BlockBody(s), '\n'), level) else []
    case _ => []
  }

  /** The fields of a dictionary, each a line `key:` with its tail and what stands below it. */
  function DumpEntries(entries: seq<Entry>, level: nat): (lines: seq<string>)
    ensures |entries| > 0 ==> |lines| > 0
    decreases entries
  {
    if |entries| == 0 then []
    else
      [Pad(level) + FieldText(entries[0])] + Below(entries[0].value, level + 1)
      + DumpEntries(entries[1..], level)
  }

  function FieldText(e: Entry): string { DumpText(e.key) + ":" + Tail(e.value) }

  /** `_dump` */
  function DumpNode(v: Value, level: nat): (lines: seq<string>)
    ensures |lines| > 0
    decreases v, 1
  {
    match v
    case Map(entries) => if |entries| == 0 then [Pad(level) + "{}"] else DumpEntries(entries, level)
    case List(items) => if |items| == 0 then [Pad(level) + "[]"] else DumpItems(items, level)
    case _ => [Pad(level) + DumpScalar(v)]
  }

  function DumpItems(items: seq<Value>, level: nat): (lines: seq<string>)
    ensures |items| > 0 ==> |lines| > 0
    decreases items
  {
    if |items| == 0 then [] else DumpItem(items[0], level) + DumpItems(items[1..], level)
  }

  /** The fields of a dictionary inside a list: only the first one carries the dash. */
  function DumpDashFields(entries: seq<Entry>, level: nat, first: bool): (lines: seq<string>)
    ensures |entries| > 0 ==> |lines| > 0
    decreases entries
  {
    if |entries| == 0 then []
    else
      [(if first then Pad(level) + "- " else Pad(level + 1)) + FieldText(entries[0])]
      + Below(entries[0].value, level + 2)
      + DumpDashFields(entries[1..], level, false)
  }

  /** `_dump_list_item` */
  function DumpItem(v: Value, level: nat): (lines: seq<string>)
    ensures |lines| > 0
    decreases v, 2
  {
    match v
    case Map(entries) => if |entries| == 0 then [Pad(level) + "- {}"] else DumpDashFields(entries, level, true)
    case List(items) => [Pad(level) + "-"] + DumpNode(v, level + 1)
    case _ => [Pad(level) + "-" + Tail(v)] + Below(v, level + 1)
  }

  /** `_dump` refuses an empty key; a dictionary that is a list item is printed without that test. */
  predicate Dumpable(v: Value)
    decreases v, 1
  {
    (v.Map? ==> forall i :: 0 <= i < |v.entries| ==> v.entries[i].key != "") && DumpableInside(v)
  }

  /** What `_dump_list_item` asks of an item: nested dictionaries only. */
  predicate DumpableInside(v: Value)
    decreases v, 0
  {
    match v
    case Map(entries) => forall i :: 0 <= i < |entries| ==> Dumpable(entries[i].value)
    case List(items) =>
      forall i :: 0 <= i < |items| ==> if items[i].Map? then DumpableInside(items[i]) else Dumpable(items[i])
    case _ => true
  }

  /** `dump_yaml` of a value it does not refuse. */
  function DumpYaml(v: Value): string {
    Join(DumpNode(v, 0), '\n') + "\n"
  }

  // ---------- parser ----------

  predicate Ignorable(line: string) {
    Strip(line) == "" || "#" <= LStrip(line)
  }

  function CountInk(s: string): nat {
    if |s| == 0 then 0 else (if s[0] == ' ' then 0 else 1) + CountInk(s[1..])
  }

  /** The number of characters other than ' ': the termination measure of the parser. */
  function Ink(rows: seq<string>): nat {
    if |rows| == 0 then 0 else CountInk(rows[0]) + Ink(rows[1..])
  }

  lemma {:induction false} CountInkConcat(a: string, b: string)
    ensures CountInk(a + b) == CountInk(a) + CountInk(b)
  {
    if |a| == 0 {
      assert a + b == b;
    } else {
      assert (a + b)[1..] == a[1..] + b;
      CountInkConcat(a[1..], b);
    }
  }

  lemma {:induction false} CountInkSpaces(n: nat)
    ensures CountInk(Spaces(n)) == 0
  {
    if n > 0 {
      assert Spaces(n)[1..] == Spaces(n - 1);
      CountInkSpaces(n - 1);
    }
  }

  lemma {:induction false} InkConcat(a: seq<string>, b: seq<string>)
    ensures Ink(a + b) == Ink(a) + Ink(b)
  {
    if |a| == 0 {
      assert a + b == b;
    } else {
      assert (a + b)[1..] == a[1..] + b;
      InkConcat(a[1..], b);
    }
  }

  lemma InkSuffix(rows: seq<string>, i: nat, j: nat)
    requires i <= j <= |rows|
    ensures Ink(rows[j..]) <= Ink(rows[i..])
  {
    InkConcat(rows[i..j], rows[j..]);
    assert rows[i..] == rows[i..j] + rows[j..];
  }

  /** The rows of a dictionary in a list: its first line loses the dash. */
  function NestedRows(rows: seq<string>, index: nat, indent: nat, body: string, end: nat): seq<string>
    requires index < end <= |rows|
  {
    [Spaces(indent + 2) + body] + rows[index + 1..end]
  }

  lemma NestedInk(rows: seq<string>, index: nat, indent: nat, body: string, end: nat)
    requires index < end <= |rows|
    requires rows[index] == Spaces(indent) + "- " + body
    ensures Ink(NestedRows(rows, index, indent, body, end)) < Ink(rows[index..])
  {
    var nested := NestedRows(rows, index, indent, body, end);
    assert nested[1..] == rows[index + 1..end];
    CountInkConcat(Spaces(indent + 2), body);
    CountInkSpaces(indent + 2);
    CountInkConcat(Spaces(indent) + "- ", body);
    CountInkConcat(Spaces(indent), "- ");
    CountInkSpaces(indent);
    assert CountInk("- ") == 1;
    assert rows[index..][1..] == rows[index + 1..end] + rows[end..];
    InkConcat(rows[index + 1..end], rows[end..]);
  }

  function SkipIgnorable(rows: seq<string>, index: nat): (next: nat)
    requires index <= |rows|
    ensures index <= next <= |rows|
    decreases |rows| - index
  {
    if index < |rows| && Ignorable(rows[index]) then SkipIgnorable(rows, index + 1) else index
  }

  /** First row at or after `look` that is not indented deeper than `indent`. */
  function NestedEnd(rows: seq<string>, look: nat, indent: nat): (next: nat)
    requires look <= |rows|
    ensures look <= next <= |rows|
    decreases |rows| - look
  {
    if look < |rows| && IndentOf(rows[look]) > indent then NestedEnd(rows, look + 1, indent) else look
  }

  function Unescape(s: string): Result<string> {
    if |s| == 0 then Ok("")
    else if s[0] == '\\' then
      if |s| == 1 then Err(DanglingEscape)
      else if s[1] == 'n' then Prepend('\n', Unescape(s[2..]))
      else if s[1] == '"' || s[1] == '\\' then Prepend(s[1], Unescape(s[2..]))
      else Err(BadEscape)
    else Prepend(s[0], Unescape(s[1..]))
  }

  function Prepend(c: char, r: Result<string>): Result<string> {
    match r
    case Ok(t) => Ok([c] + t)
    case Err(e) => Err(e)
  }

  /** `text.replace("''", "'")` */
  function ReplaceDoubledQuotes(s: string): string {
    if "''" <= s then "'" + ReplaceDoubledQuotes(s[2..])
    else if |s| == 0 then "" else [s[0]] + ReplaceDoubledQuotes(s[1..])
  }

  function ParseScalar(raw: string): Result<Value> {
    var text := Strip(raw);
    if text == "{}" then Ok(Map([]))
    else if text == "[]" then Ok(List([]))
    else if text == "null" || text == "~" then Ok(Null)
    else if text == "true" then Ok(Bool(true))
    else if text == "false" then Ok(Bool(false))
    else if |text| >= 2 && text[0] == '"' && text[|text| - 1] == '"' then
      match Unescape(text[1..|text| - 1])
      case Ok(s) => Ok(Str(s))
      case Err(e) => Err(e)
    else if |text| >= 2 && text[0] == '\'' && text[|text| - 1] == '\'' then
      Ok(Str(ReplaceDoubledQuotes(text[1..|text| - 1])))
    else if AllDigits(text) then Ok(Int(ParseDigits(text)))
    else if "-" <= text && AllDigits(text[1..]) then Ok(Int(0 - ParseDigits(text[1..])))
    else Ok(Str(text))
  }

  function ParseKey(raw: string): Result<string> {
    if raw == "" then Err(EmptyKey)
    else if raw[0] == '"' || raw[0] == '\'' then
      match ParseScalar(raw)
      case Ok(v) => if v.Str? then Ok(v.s) else Err(KeyNotString)
      case Err(e) => Err(e)
    else Ok(raw)
  }

  predicate LooksLikeMap(stripped: string) {
    && !("'" <= stripped) && !("\"" <= stripped) && !("|" <= stripped)
    && ':' in stripped
  }

  /** The loop of `_parse_block` from its current state. */
  function BlockLoop(rows: seq<string>, index: nat, minSpaces: nat, parts: seq<string>): (r: (seq<string>, nat))
    requires index <= |rows|
    ensures index <= r.1 <= |rows|
    decreases |rows| - index
  {
    if index == |rows| then (parts, index)
    else if Strip(rows[index]) == "" then BlockLoop(rows, index + 1, minSpaces, parts + [""])
    else if IndentOf(rows[index]) < minSpaces then (parts, index)
    else BlockLoop(rows, index + 1, minSpaces, parts + [rows[index][minSpaces..]])
  }

  function ParseBlock(rows: seq<string>, index: nat, minSpaces: nat, marker: string): (r: (string, nat))
    requires index <= |rows|
    ensures index <= r.1 <= |rows|
  {
    var (parts, next) := BlockLoop(rows, index, minSpaces, []);
    (Join(parts, '\n') + (if marker == "|" then "\n" else ""), next)
  }

  /** `_parse_node` */
  function ParseNode(rows: seq<string>, index: nat, minIndent: nat): (r: Parsed<Value>)
    requires index < |rows|
    ensures r.Done? ==> index <= r.next <= |rows|
    decreases Ink(rows[index..]), |rows| - index, 1
  {
    var indent := IndentOf(rows[index]);
    var stripped := rows[index][indent..];
    if indent < minIndent then Fail(IndentUnderflow)
    else if stripped == "{}" then Done(Map([]), index + 1)
    else if stripped == "[]" then Done(List([]), index + 1)
    else if "-" <= stripped then
      match ListLoop(rows, index, indent, [])
      case Done(items, next) => Done(List(items), next)
      case Fail(e) => Fail(e)
    else if LooksLikeMap(stripped) then
      match MapLoop(rows, index, indent, [])
      case Done(entries, next) => Done(Map(entries), next)
      case Fail(e) => Fail(e)
    else
      match ParseScalar(stripped)
      case Ok(v) => Done(v, index + 1)
      case Err(e) => Fail(e)
  }

  /** The loop of `_parse_map` from its current state. */
  function MapLoop(rows: seq<string>, index: nat, indent: nat, out: seq<Entry>): (r: Parsed<seq<Entry>>)
    requires index <= |rows|
    ensures r.Done? ==> index <= r.next <= |rows|
    decreases Ink(rows[index..]), |rows| - index, 0
  {
    if index == |rows| then Done(out, index)
    else
      var line := rows[index];
      var current := IndentOf(line);
      var stripped := line[current..];
      var colon := Find(stripped, ':');
      InkSuffix(rows, index, index + 1);
      if Ignorable(line) then MapLoop(rows, index + 1, indent, out)
      else if current < indent then Done(out, index)
      else if current > indent then Fail(UnexpectedIndent)
      else if "-" <= stripped then Done(out, index)
      else if colon == |stripped| then Fail(ExpectedMapping)
      else
        match ParseKey(Strip(stripped[..colon]))
        case Err(e) => Fail(e)
        case Ok(key) =>
          if HasKey(out, key) then Fail(DuplicateKey)
          else
            var rest := Strip(stripped[colon + 1..]);
            if rest == "" then
              var look := SkipIgnorable(rows, index + 1);
              if look == |rows| || IndentOf(rows[look]) <= indent then
                MapLoop(rows, index + 1, indent, out + [Entry(key, Map([]))])
              else
                InkSuffix(rows, index, look);
                match ParseNode(rows, look, indent + 2)
                case Fail(e) => Fail(e)
                case Done(v, next) =>
                  InkSuffix(rows, index, next);
                  MapLoop(rows, next, indent, out + [Entry(key, v)])
            else if rest == "|" || rest == "|-" then
              var (text, next) := ParseBlock(rows, index + 1, indent + 2, rest);
              InkSuffix(rows, index, next);
              MapLoop(rows, next, indent, out + [Entry(key, Str(text))])
            else
              match ParseScalar(rest)
              case Err(e) => Fail(e)
              case Ok(v) => MapLoop(rows, index + 1, indent, out + [Entry(key, v)])
  }

  /** The loop of `_parse_list` from its current state. */
  function ListLoop(rows: seq<string>, index: nat, indent: nat, out: seq<Value>): (r: Parsed<seq<Value>>)
    requires index <= |rows|
    ensures r.Done? ==> index <= r.next <= |rows|
    decreases Ink(rows[index..]), |rows| - index, 0
  {
    if index == |rows| then Done(out, index)
    else
      var line := rows[index];
      var current := IndentOf(line);
      var stripped := line[current..];
      InkSuffix(rows, index, index + 1);
      if Ignorable(line) then ListLoop(rows, index + 1, indent, out)
      else if current < indent then Done(out, index)
      else if current > indent then Fail(UnexpectedListIndent)
      else if !("-" <= stripped) then Done(out, index)
      else if stripped == "-" then
        var look := SkipIgnorable(rows, index + 1);
        if look == |rows| then ListLoop(rows, index + 1, indent, out + [Null])
        else
          InkSuffix(rows, index, look);
          match ParseNode(rows, look, indent + 2)
          case Fail(e) => Fail(e)
          case Done(v, next) =>
            InkSuffix(rows, index, next);
            ListLoop(rows, next, indent, out + [v])
      else if !("- " <= stripped) then Fail(MalformedListItem)
      else
        var body := stripped[2..];
        if body == "|" || body == "|-" then
          var (text, next) := ParseBlock(rows, index + 1, indent + 2, body);
          InkSuffix(rows, index, next);
          ListLoop(rows, next, indent, out + [Str(text)])
        else if LooksLikeMap(body) then
          var end := NestedEnd(rows, index + 1, indent);
          var nested := NestedRows(rows, index, indent, body, end);
          DashLine(line, indent, body);
          NestedInk(rows, index, indent, body, end);
          assert nested[0..] == nested;
          match MapLoop(nested, 0, indent + 2, [])
          case Fail(e) => Fail(e)
          case Done(entries, consumed) =>
            if consumed != |nested| then Fail(MalformedListMapping)
            else
              InkSuffix(rows, index, end);
              ListLoop(rows, end, indent, out + [Map(entries)])
        else
          match ParseScalar(body)
          case Err(e) => Fail(e)
          case Ok(v) => ListLoop(rows, index + 1, indent, out + [v])
  }

  lemma {:induction false} IndentPrefix(line: string)
    ensures line[..IndentOf(line)] == Spaces(IndentOf(line))
  {
    if |line| > 0 && line[0] == ' ' {
      IndentPrefix(line[1..]);
      var n := IndentOf(line);
      assert line[..n] == [' '] + line[1..][..n - 1];
    }
  }

  lemma DashLine(line: string, indent: nat, body: string)
    requires indent == IndentOf(line) && "- " <= line[indent..]
    requires body == line[indent..][2..]
    ensures line == Spaces(indent) + "- " + body
  {
    IndentPrefix(line);
    assert line == line[..indent] + line[indent..];
  }

  /** `text.replace("\r\n", "\n").replace("\r", "\n")` */
  function NormalizeNewlines(s: string): string {
    if |s| == 0 then ""
    else if s[0] == '\r' then ['\n'] + NormalizeNewlines(if |s| > 1 && s[1] == '\n' then s[2..] else s[1..])
    else [s[0]] + NormalizeNewlines(s[1..])
  }

  function RStripAll(lines: seq<string>): (rows: seq<string>)
    ensures |rows| == |lines|
    ensures forall i :: 0 <= i < |lines| ==> rows[i] == RStrip(lines[i])
  {
    seq(|lines|, i requires 0 <= i < |lines| => RStrip(lines[i]))
  }

  function DropBlankTail(rows: seq<string>): (r: seq<string>)
    ensures |r| <= |rows|
  {
    if |rows| > 0 && Strip(rows[|rows| - 1]) == "" then DropBlankTail(rows[..|rows| - 1]) else rows
  }

  function Rows(text: string): seq<string> {
    DropBlankTail(RStripAll(Split(NormalizeNewlines(text), '\n')))
  }

  /** `parse_yaml` */
  function ParseYaml(text: string): Result<Value> {
    var rows := Rows(text);
    var start := SkipIgnorable(rows, 0);
    if start == |rows| then Err(EmptyDocument)
    else
      match ParseNode(rows, start, 0)
      case Fail(e) => Err(e)
      case Done(v, next) =>
        if SkipIgnorable(rows, next) == |rows| then Ok(v) else Err(UnexpectedContent)
  }
}
