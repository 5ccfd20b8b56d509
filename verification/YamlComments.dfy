/**
 A comment line changes nothing, in any text: parsing the rows with it and without it runs in step, the one a
 row ahead of the other behind the comment.
 */
module YamlComments {
  import opened Text
  import opened Yaml
  import opened YamlScalars
  import opened YamlShape
  import opened YamlRoundTrip
  import opened YamlDocument

  // ---------- rows with a comment ----------

  /** A comment as a row: spaces and a hash in front. */
  predicate CommentRow(row: string, indent: nat) {
    Spaces(indent) + "#" <= row
  }

  /**
   `more` is `rows` with a comment at p.  In front of everything the comment may be indented; elsewhere it
   begins its line, and so does the text of the row behind it, if there is one.
   */
  ghost predicate Inserted(more: seq<string>, rows: seq<string>, p: nat) {
    && p <= |rows| && |more| == |rows| + 1
    && more[..p] == rows[..p] && more[p + 1..] == rows[p..]
    && (exists indent :: CommentRow(more[p], indent))
    && (p > 0 ==> CommentRow(more[p], 0))
    && (0 < p < |rows| ==> |rows[p]| > 0 && !IsSpace(rows[p][0]))
  }

  /** Where the row i of `rows` is in `more`. */
  function Up(p: nat, i: nat): nat { if i < p then i else i + 1 }

  /** The same place in both, the comment still ahead or just passed. */
  predicate InStep(p: nat, j: nat, i: nat) {
    j == Up(p, i) || (i == p && p > 0 && j == p)
  }

  lemma SameRow(more: seq<string>, rows: seq<string>, p: nat, i: nat)
    requires Inserted(more, rows, p) && i < |rows|
    ensures Up(p, i) < |more| && more[Up(p, i)] == rows[i]
  {
    if i < p {
      assert more[..p][i] == rows[..p][i];
    } else {
      assert more[p + 1..][i - p] == rows[p..][i - p];
    }
  }

  lemma {:induction false} HashIndent(row: string, indent: nat)
    requires CommentRow(row, indent)
    ensures Ignorable(row) && IndentOf(row) == indent && Strip(row) != ""
    decreases indent
  {
    hide IsSpace;
    var n := indent;
    assert row[..n] == Spaces(n) && row[n] == '#';
    HashIsInk();
    assert !Blank(row);
    StripProps(row);
    var rest := row[n..];
    assert row == Spaces(n) + rest;
    LStripSpaces(n, rest);
    IndentOfSpaces(n, rest);
  }

  lemma HashIsInk()
    ensures !IsSpace('#')
  {}

  lemma {:induction false} LStripSpaces(n: nat, rest: string)
    requires |rest| > 0 && !IsSpace(rest[0])
    ensures LStrip(Spaces(n) + rest) == rest
  {
    if n == 0 {
      assert Spaces(0) + rest == rest;
    } else {
      assert (Spaces(n) + rest)[1..] == Spaces(n - 1) + rest;
      LStripSpaces(n - 1, rest);
    }
  }

  lemma {:induction false} IndentOfSpaces(n: nat, rest: string)
    requires |rest| > 0 && rest[0] != ' '
    ensures IndentOf(Spaces(n) + rest) == n
  {
    if n == 0 {
      assert Spaces(0) + rest == rest;
    } else {
      assert (Spaces(n) + rest)[1..] == Spaces(n - 1) + rest;
      IndentOfSpaces(n - 1, rest);
    }
  }

  /** What the loops see of the comment and of the row behind it. */
  lemma AtComment(more: seq<string>, rows: seq<string>, p: nat)
    requires Inserted(more, rows, p)
    ensures Ignorable(more[p]) && Strip(more[p]) != "" && (p > 0 ==> IndentOf(more[p]) == 0)
    ensures 0 < p < |rows| ==> Strip(rows[p]) != "" && IndentOf(rows[p]) == 0
  {
    hide Ignorable, IsSpace;
    var indent :| CommentRow(more[p], indent);
    HashIndent(more[p], indent);
    if p > 0 { HashIndent(more[p], 0); }
    if 0 < p < |rows| {
      assert !Blank(rows[p]);
      StripProps(rows[p]);
      assert rows[p][0] != ' ' by { BlankIsASpace(); }
    }
  }

  // ---------- the small loops ----------

  lemma {:induction false} SkipInStep(more: seq<string>, rows: seq<string>, p: nat, j: nat, i: nat)
    requires Inserted(more, rows, p) && i <= |rows| && InStep(p, j, i)
    ensures j <= |more| && SkipIgnorable(more, j) == Up(p, SkipIgnorable(rows, i))
    decreases |rows| - i
  {
    hide Ignorable, Inserted;
    Lengths(more, rows, p);
    AtComment(more, rows, p);
    if j == p && i == p && p > 0 {
      assert SkipIgnorable(more, p) == SkipIgnorable(more, p + 1);
    }
    if i < |rows| {
      SameRow(more, rows, p, i);
      if Ignorable(rows[i]) { SkipInStep(more, rows, p, Up(p, i) + 1, i + 1); }
    }
  }

  lemma Lengths(more: seq<string>, rows: seq<string>, p: nat)
    requires Inserted(more, rows, p)
    ensures p <= |rows| && |more| == |rows| + 1
  {}

  /** A block in front of the comment ends there at the latest; one behind it is read alike. */
  lemma {:induction false} BlockInStep(more: seq<string>, rows: seq<string>, p: nat, i: nat, bound: nat,
                                       parts: seq<string>, behind: bool)
    requires Inserted(more, rows, p) && i <= |rows| && bound > 0 && (if behind then p <= i else p > 0 && i <= p)
    ensures var j := if behind then i + 1 else i;
      var r := BlockLoop(rows, i, bound, parts);
      j <= |more| && BlockLoop(more, j, bound, parts) == (r.0, if behind then r.1 + 1 else r.1)
      && (!behind ==> r.1 <= p)
    decreases |rows| - i
  {
    hide Strip, IndentOf, Inserted;
    Lengths(more, rows, p);
    AtComment(more, rows, p);
    if behind || i < p {
      if i < |rows| {
        SameRow(more, rows, p, i);
        if Strip(rows[i]) == "" {
          BlockInStep(more, rows, p, i + 1, bound, parts + [""], behind);
        } else if IndentOf(rows[i]) >= bound {
          BlockInStep(more, rows, p, i + 1, bound, parts + [rows[i][bound..]], behind);
        }
      }
    }
  }

  lemma {:induction false} NestedInStep(more: seq<string>, rows: seq<string>, p: nat, i: nat, indent: nat, behind: bool)
    requires Inserted(more, rows, p) && i <= |rows| && (if behind then p <= i else p > 0 && i <= p)
    ensures var j := if behind then i + 1 else i;
      var end := NestedEnd(rows, i, indent);
      j <= |more| && NestedEnd(more, j, indent) == (if behind then end + 1 else end) && (!behind ==> end <= p)
    decreases |rows| - i
  {
    hide Strip, IndentOf, Inserted;
    Lengths(more, rows, p);
    AtComment(more, rows, p);
    if behind || i < p {
      if i < |rows| {
        SameRow(more, rows, p, i);
        if IndentOf(rows[i]) > indent { NestedInStep(more, rows, p, i + 1, indent, behind); }
      }
    }
  }

  /** The rows copied for a dictionary in a list are the same. */
  lemma SameNested(more: seq<string>, rows: seq<string>, p: nat, i: nat, indent: nat, body: string)
    requires Inserted(more, rows, p) && i < |rows|
    ensures Up(p, i) < |more|
    ensures var end, up := NestedEnd(rows, i + 1, indent), NestedEnd(more, Up(p, i) + 1, indent);
      && up == (if i < p then end else end + 1) && (i < p ==> end <= p)
      && NestedRows(more, Up(p, i), indent, body, up) == NestedRows(rows, i, indent, body, end)
  {
    hide IndentOf, NestedEnd, Inserted;
    NestedInStep(more, rows, p, i + 1, indent, i >= p);
    var end := NestedEnd(rows, i + 1, indent);
    SameRow(more, rows, p, i);
    SameRows(more, rows, p, i + 1, end);
  }

  /** Rows in front of the comment, or behind it. */
  lemma SameRows(more: seq<string>, rows: seq<string>, p: nat, i: nat, end: nat)
    requires Inserted(more, rows, p) && i <= end <= |rows| && (end <= p || p <= i)
    ensures end < |more|
    ensures (if end <= p then more[i..end] else more[i + 1..end + 1]) == rows[i..end]
  {
    hide Inserted;
    Lengths(more, rows, p);
    var there := if end <= p then more[i..end] else more[i + 1..end + 1];
    forall k | i <= k < end ensures there[k - i] == rows[k] { SameRow(more, rows, p, k); }
  }

  // ---------- the parser ----------

  /** Both fail alike, or both yield the same and end in step. */
  predicate Alike<T(==)>(p: nat, a: Parsed<T>, b: Parsed<T>) {
    if b.Fail? then a == Fail(b.error) else a.Done? && a.value == b.value && InStep(p, a.next, b.next)
  }

  lemma {:induction false} NodeInStep(more: seq<string>, rows: seq<string>, p: nat, i: nat, minIndent: nat)
    requires Inserted(more, rows, p) && i < |rows|
    ensures Up(p, i) < |more| && Alike(p, ParseNode(more, Up(p, i), minIndent), ParseNode(rows, i, minIndent))
    decreases Ink(rows[i..]), |rows| - i, 1
  {
    hide MapLoop, ListLoop, ParseScalar, IndentOf, LooksLikeMap, Ink, Inserted;
    Lengths(more, rows, p);
    SameRow(more, rows, p, i);
    var indent := IndentOf(rows[i]);
    MapInStep(more, rows, p, Up(p, i), i, indent, []);
    ListInStep(more, rows, p, Up(p, i), i, indent, []);
  }

  /** At the comment the loops go on behind it. */
  lemma MapPasses(more: seq<string>, rows: seq<string>, p: nat, indent: nat, out: seq<Entry>)
    requires Inserted(more, rows, p)
    ensures MapLoop(more, p, indent, out) == MapLoop(more, p + 1, indent, out)
  {
    hide ParseNode, ListLoop, ParseBlock, ParseScalar, ParseKey, Strip, IndentOf, Ignorable, SkipIgnorable, Find, Ink;
    hide HasKey, Inserted;
    Lengths(more, rows, p);
    AtComment(more, rows, p);
  }

  lemma ListPasses(more: seq<string>, rows: seq<string>, p: nat, indent: nat, out: seq<Value>)
    requires Inserted(more, rows, p)
    ensures ListLoop(more, p, indent, out) == ListLoop(more, p + 1, indent, out)
  {
    hide ParseNode, MapLoop, ParseBlock, ParseScalar, Strip, IndentOf, Ignorable, SkipIgnorable, LooksLikeMap, Ink;
    hide NestedEnd, NestedRows, Inserted;
    Lengths(more, rows, p);
    AtComment(more, rows, p);
  }

  /** What the dictionary loop makes of a line: skipped, its end, an error, or a field. */
  datatype MapLine = Skipped | Ends | Wrong(error: Error) | Field(key: string, rest: string)

  function ReadMapLine(line: string, indent: nat, out: seq<Entry>): MapLine {
    var current := IndentOf(line);
    var stripped := line[current..];
    var colon := Find(stripped, ':');
    if Ignorable(line) then Skipped
    else if current < indent then Ends
    else if current > indent then Wrong(UnexpectedIndent)
    else if "-" <= stripped then Ends
    else if colon == |stripped| then Wrong(ExpectedMapping)
    else
      match ParseKey(Strip(stripped[..colon]))
      case Err(e) => Wrong(e)
      case Ok(key) => if HasKey(out, key) then Wrong(DuplicateKey) else Field(key, Strip(stripped[colon + 1..]))
  }

  /** The loop on a field. */
  function OnField(rows: seq<string>, i: nat, indent: nat, out: seq<Entry>, key: string, rest: string):
    Parsed<seq<Entry>>
    requires i < |rows|
  {
    if rest == "" then
      var look := SkipIgnorable(rows, i + 1);
      if look == |rows| || IndentOf(rows[look]) <= indent then MapLoop(rows, i + 1, indent, out + [Entry(key, Map([]))])
      else
        match ParseNode(rows, look, indent + 2)
        case Fail(e) => Fail(e)
        case Done(v, next) => MapLoop(rows, next, indent, out + [Entry(key, v)])
    else if rest == "|" || rest == "|-" then
      var (text, next) := ParseBlock(rows, i + 1, indent + 2, rest);
      MapLoop(rows, next, indent, out + [Entry(key, Str(text))])
    else
      match ParseScalar(rest)
      case Err(e) => Fail(e)
      case Ok(v) => MapLoop(rows, i + 1, indent, out + [Entry(key, v)])
  }

  /** One turn of the loop. */
  lemma MapTurn(rows: seq<string>, i: nat, indent: nat, out: seq<Entry>)
    requires i < |rows|
    ensures var line := ReadMapLine(rows[i], indent, out);
      MapLoop(rows, i, indent, out) ==
        if line.Skipped? then MapLoop(rows, i + 1, indent, out)
        else if line.Ends? then Done(out, i)
        else if line.Wrong? then Fail(line.error)
        else OnField(rows, i, indent, out, line.key, line.rest)
  {
    hide ParseNode, ListLoop, ParseBlock, ParseScalar, ParseKey, Strip, IndentOf, Ignorable, SkipIgnorable, Find, Ink;
    hide HasKey;
  }

  lemma {:induction false} MapInStep(more: seq<string>, rows: seq<string>, p: nat, j: nat, i: nat, indent: nat,
                                     out: seq<Entry>)
    requires Inserted(more, rows, p) && i <= |rows| && InStep(p, j, i)
    ensures j <= |more| && Alike(p, MapLoop(more, j, indent, out), MapLoop(rows, i, indent, out))
    decreases Ink(rows[i..]), |rows| - i, 0
  {
    hide ReadMapLine, OnField, Ink, Inserted, MapLoop;
    Lengths(more, rows, p);
    if j == p && i == p && p > 0 { MapPasses(more, rows, p, indent, out); }
    if i < |rows| {
      SameRow(more, rows, p, i);
      MapTurn(rows, i, indent, out);
      MapTurn(more, Up(p, i), indent, out);
      InkSuffix(rows, i, i + 1);
      var line := ReadMapLine(rows[i], indent, out);
      if line.Skipped? {
        MapInStep(more, rows, p, Up(p, i) + 1, i + 1, indent, out);
      } else if line.Field? {
        FieldInStep(more, rows, p, i, indent, out, line.key, line.rest);
      }
    } else {
      MapOver(rows, indent, out);
      MapOver(more, indent, out);
    }
  }

  lemma MapOver(rows: seq<string>, indent: nat, out: seq<Entry>)
    ensures MapLoop(rows, |rows|, indent, out) == Done(out, |rows|)
  {}

  /** The value of a field, and the fields behind it. */
  lemma {:induction false} FieldInStep(more: seq<string>, rows: seq<string>, p: nat, i: nat, indent: nat,
                                       out: seq<Entry>, key: string, rest: string)
    requires Inserted(more, rows, p) && i < |rows| && Ink(rows[i + 1..]) <= Ink(rows[i..])
    ensures Up(p, i) < |more|
    ensures Alike(p, OnField(more, Up(p, i), indent, out, key, rest), OnField(rows, i, indent, out, key, rest))
    decreases Ink(rows[i..]), |rows| - i - 1, 2
  {
    hide ParseNode, MapLoop, ListLoop, ParseBlock, ParseScalar, IndentOf, SkipIgnorable, Ink, Inserted;
    Lengths(more, rows, p);
    if rest == "" {
      SkipInStep(more, rows, p, Up(p, i) + 1, i + 1);
      var look := SkipIgnorable(rows, i + 1);
      if look < |rows| { SameRow(more, rows, p, look); }
      if look == |rows| || IndentOf(rows[look]) <= indent {
        MapInStep(more, rows, p, Up(p, i) + 1, i + 1, indent, out + [Entry(key, Map([]))]);
      } else {
        InkSuffix(rows, i, look);
        NodeInStep(more, rows, p, look, indent + 2);
        var a, b := ParseNode(more, Up(p, look), indent + 2), ParseNode(rows, look, indent + 2);
        if b.Done? {
          InkSuffix(rows, i, b.next);
          MapInStep(more, rows, p, a.next, b.next, indent, out + [Entry(key, b.value)]);
        }
      }
    } else if rest == "|" || rest == "|-" {
      var a, b := ParseBlock(more, Up(p, i) + 1, indent + 2, rest), ParseBlock(rows, i + 1, indent + 2, rest);
      TextInStep(more, rows, p, i, indent + 2, rest);
      InkSuffix(rows, i, b.1);
      MapInStep(more, rows, p, a.1, b.1, indent, out + [Entry(key, Str(b.0))]);
    } else if ParseScalar(rest).Ok? {
      MapInStep(more, rows, p, Up(p, i) + 1, i + 1, indent, out + [Entry(key, ParseScalar(rest).value)]);
    }
  }

  lemma TextInStep(more: seq<string>, rows: seq<string>, p: nat, i: nat, bound: nat, marker: string)
    requires Inserted(more, rows, p) && i < |rows| && bound > 0
    ensures Up(p, i) < |more|
    ensures var a, b := ParseBlock(more, Up(p, i) + 1, bound, marker), ParseBlock(rows, i + 1, bound, marker);
      a.0 == b.0 && InStep(p, a.1, b.1)
  {
    hide BlockLoop, Join, Inserted;
    Lengths(more, rows, p);
    BlockInStep(more, rows, p, i + 1, bound, [], i >= p);
  }

  lemma {:induction false} ListInStep(more: seq<string>, rows: seq<string>, p: nat, j: nat, i: nat, indent: nat,
                                      out: seq<Value>)
    requires Inserted(more, rows, p) && i <= |rows| && InStep(p, j, i)
    ensures j <= |more| && Alike(p, ListLoop(more, j, indent, out), ListLoop(rows, i, indent, out))
    decreases Ink(rows[i..]), |rows| - i, 0
  {
    hide ParseNode, MapLoop, ParseBlock, ParseScalar, Strip, IndentOf, Inserted;
    hide Ignorable, SkipIgnorable, LooksLikeMap, NestedEnd, NestedRows, Ink;
    Lengths(more, rows, p);
    if j == p && i == p && p > 0 { ListPasses(more, rows, p, indent, out); }
    if i < |rows| {
      SameRow(more, rows, p, i);
      var line := rows[i];
      var current := IndentOf(line);
      var stripped := line[current..];
      InkSuffix(rows, i, i + 1);
      if Ignorable(line) {
        ListInStep(more, rows, p, Up(p, i) + 1, i + 1, indent, out);
      } else if current == indent && stripped == "-" {
        BareDashInStep(more, rows, p, i, indent, out);
      } else if current == indent && "- " <= stripped {
        DashInStep(more, rows, p, i, indent, out, stripped[2..]);
      }
    }
  }

  /** A dash with its value below. */
  lemma {:induction false} BareDashInStep(more: seq<string>, rows: seq<string>, p: nat, i: nat, indent: nat,
                                          out: seq<Value>)
    requires Inserted(more, rows, p) && i < |rows| && Ink(rows[i + 1..]) <= Ink(rows[i..])
    ensures Up(p, i) < |more|
    ensures var look, up := SkipIgnorable(rows, i + 1), SkipIgnorable(more, Up(p, i) + 1);
      && (look == |rows| <==> up == |more|)
      && if look == |rows| then Alike(p, ListLoop(more, Up(p, i) + 1, indent, out + [Null]),
                                      ListLoop(rows, i + 1, indent, out + [Null]))
         else
           var a, b := ParseNode(more, up, indent + 2), ParseNode(rows, look, indent + 2);
           Alike(p, a, b) && (b.Done? ==> Alike(p, ListLoop(more, a.next, indent, out + [a.value]),
                                                ListLoop(rows, b.next, indent, out + [b.value])))
    decreases Ink(rows[i..]), |rows| - i - 1, 2
  {
    hide ParseNode, MapLoop, ListLoop, ParseBlock, ParseScalar, IndentOf, SkipIgnorable, Ink, Inserted;
    Lengths(more, rows, p);
    SkipInStep(more, rows, p, Up(p, i) + 1, i + 1);
    var look := SkipIgnorable(rows, i + 1);
    if look == |rows| {
      ListInStep(more, rows, p, Up(p, i) + 1, i + 1, indent, out + [Null]);
    } else {
      InkSuffix(rows, i, look);
      NodeInStep(more, rows, p, look, indent + 2);
      var a, b := ParseNode(more, Up(p, look), indent + 2), ParseNode(rows, look, indent + 2);
      if b.Done? {
        InkSuffix(rows, i, b.next);
        ListInStep(more, rows, p, a.next, b.next, indent, out + [b.value]);
      }
    }
  }

  /** A block, a dictionary or a scalar behind its dash. */
  lemma {:induction false} DashInStep(more: seq<string>, rows: seq<string>, p: nat, i: nat, indent: nat,
                                      out: seq<Value>, body: string)
    requires Inserted(more, rows, p) && i < |rows| && Ink(rows[i + 1..]) <= Ink(rows[i..])
    ensures Up(p, i) < |more|
    ensures body == "|" || body == "|-" ==>
      var a, b := ParseBlock(more, Up(p, i) + 1, indent + 2, body), ParseBlock(rows, i + 1, indent + 2, body);
      a.0 == b.0 && Alike(p, ListLoop(more, a.1, indent, out + [Str(a.0)]),
                          ListLoop(rows, b.1, indent, out + [Str(b.0)]))
    ensures var end, up := NestedEnd(rows, i + 1, indent), NestedEnd(more, Up(p, i) + 1, indent);
      && NestedRows(more, Up(p, i), indent, body, up) == NestedRows(rows, i, indent, body, end)
      && forall v :: Alike(p, ListLoop(more, up, indent, out + [v]), ListLoop(rows, end, indent, out + [v]))
    ensures ParseScalar(body).Ok? ==>
      Alike(p, ListLoop(more, Up(p, i) + 1, indent, out + [ParseScalar(body).value]),
            ListLoop(rows, i + 1, indent, out + [ParseScalar(body).value]))
    decreases Ink(rows[i..]), |rows| - i - 1, 2
  {
    hide ParseNode, MapLoop, ListLoop, ParseBlock, ParseScalar, IndentOf, NestedEnd, NestedRows, Ink, Inserted;
    Lengths(more, rows, p);
    if body == "|" || body == "|-" {
      var a, b := ParseBlock(more, Up(p, i) + 1, indent + 2, body), ParseBlock(rows, i + 1, indent + 2, body);
      TextInStep(more, rows, p, i, indent + 2, body);
      InkSuffix(rows, i, b.1);
      ListInStep(more, rows, p, a.1, b.1, indent, out + [Str(b.0)]);
    }
    SameNested(more, rows, p, i, indent, body);
    var end, up := NestedEnd(rows, i + 1, indent), NestedEnd(more, Up(p, i) + 1, indent);
    InkSuffix(rows, i, end);
    forall v ensures Alike(p, ListLoop(more, up, indent, out + [v]), ListLoop(rows, end, indent, out + [v])) {
      ListInStep(more, rows, p, up, end, indent, out + [v]);
    }
    if ParseScalar(body).Ok? {
      ListInStep(more, rows, p, Up(p, i) + 1, i + 1, indent, out + [ParseScalar(body).value]);
    }
  }

  // ---------- documents ----------

  /** `parse_yaml` from its rows on. */
  function ParseRows(rows: seq<string>): Result<Value> {
    var start := SkipIgnorable(rows, 0);
    if start == |rows| then Err(EmptyDocument)
    else
      match ParseNode(rows, start, 0)
      case Fail(e) => Err(e)
      case Done(v, next) =>
        if SkipIgnorable(rows, next) == |rows| then Ok(v) else Err(UnexpectedContent)
  }

  lemma ParseIsRows(text: string)
    ensures ParseYaml(text) == ParseRows(Rows(text))
  {
    hide Rows, ParseNode, SkipIgnorable;
  }

  /** Rows with a comment are read as the rows without it. */
  lemma CommentRows(more: seq<string>, rows: seq<string>, p: nat)
    requires Inserted(more, rows, p)
    ensures ParseRows(more) == ParseRows(rows)
  {
    hide ParseNode, SkipIgnorable, Inserted;
    Lengths(more, rows, p);
    if p == 0 {
      PassesFirst(more, rows);
    } else {
      SkipInStep(more, rows, p, 0, 0);
    }
    var start := SkipIgnorable(rows, 0);
    if start < |rows| {
      NodeInStep(more, rows, p, start, 0);
      var a, b := ParseNode(more, Up(p, start), 0), ParseNode(rows, start, 0);
      if b.Done? { SkipInStep(more, rows, p, a.next, b.next); }
    }
  }

  lemma PassesFirst(more: seq<string>, rows: seq<string>)
    requires Inserted(more, rows, 0)
    ensures SkipIgnorable(more, 0) == Up(0, SkipIgnorable(rows, 0))
  {
    hide Ignorable, Inserted;
    Lengths(more, rows, 0);
    AtComment(more, rows, 0);
    SkipInStep(more, rows, 0, 1, 0);
  }
}
