/**
 Every way to write a list of words for `env -S` that omg_cli/deny.py reads, and what it refuses: words in
 bare, escaped and quoted parts, gaps of five kinds, comments and `\c`.
 */
module EnvForms {
  import opened Options
  import opened Text
  import opened EnvSplit

  // ---------- the scan of a text from its beginning ----------

  function Run(t: string, st: Scan): Option<seq<string>> { SplitFrom(t, 0, st) }

  /** One turn of the scan: an answer, or some characters fewer and another state. */
  datatype Turn = Answer(r: Option<seq<string>>) | Go(width: nat, st: Scan)

  function OnFlush(st: Scan, width: nat): Turn {
    match Flush(st) case None => Answer(None) case Some(next) => Go(width, next)
  }

  /** By the first character, and for a backslash the second one. */
  function TurnOf(c: char, d: Option<char>, st: Scan): Turn {
    if c != '\\' then TurnPlain(c, st)
    else if d.None? then Answer(None)
    else if d.value == 'c' then Answer(match Flush(st) case None => None case Some(next) => Some(next.tokens))
    else if st.quote.None? && d.value in {' ', 't', '_'} then OnFlush(st, 2)
    else if d.value in {'\\', '\'', '"', '$', '#'} then Go(2, Take(st, d.value))
    else if st.quote.Some? && d.value in {' ', 't'} then Go(2, Take(st, if d.value == ' ' then ' ' else '\t'))
    else Answer(None)
  }

  function TurnPlain(c: char, st: Scan): Turn {
    if st.quote.Some? then (if c == st.quote.value then Go(1, st.(quote := None)) else Go(1, Take(st, c)))
    else if c in {' ', '\t'} then OnFlush(st, 1)
    else if c == '#' && !st.started then Answer(Finish(st))
    else if IsSpace(c) || c == '$' then Answer(None)
    else if c in {'\'', '"'} then Go(1, st.(quote := Some(c), started := true))
    else Go(1, Take(st, c))
  }

  lemma TurnIs(raw: string, i: nat, st: Scan)
    requires i < |raw| && st.quote != Some('\\')
    ensures var t := TurnOf(raw[i], if i + 1 < |raw| then Some(raw[i + 1]) else None, st);
      && (t.Go? ==> i + t.width <= |raw| && t.width > 0 && t.st.quote != Some('\\'))
      && SplitFrom(raw, i, st) == if t.Answer? then t.r else SplitFrom(raw, i + t.width, t.st)
  {
    hide IsSpace, Finish, Flush;
    BlanksAreSpaces();
    FlushKeepsQuote(st);
  }

  lemma FlushKeepsQuote(st: Scan)
    ensures Flush(st).Some? ==> Flush(st).value.quote == st.quote
  {}

  lemma BlanksAreSpaces()
    ensures IsSpace(' ') && IsSpace('\t') && !IsSpace('\\') && !IsSpace('"') && !IsSpace('\'') && !IsSpace('#')
    ensures !IsSpace('$')
  {}

  /** What has been scanned plays no part in the rest. */
  lemma {:induction false} Shift(a: string, b: string, i: nat, st: Scan)
    requires i <= |b| && st.quote != Some('\\')
    ensures SplitFrom(a + b, |a| + i, st) == SplitFrom(b, i, st)
    decreases |b| - i
  {
    hide TurnOf;
    if i < |b| {
      hide SplitFrom;
      assert (a + b)[|a| + i] == b[i];
      var d := if i + 1 < |b| then Some(b[i + 1]) else None;
      if i + 1 < |b| { assert (a + b)[|a| + i + 1] == b[i + 1]; }
      TurnIs(a + b, |a| + i, st);
      TurnIs(b, i, st);
      var t := TurnOf(b[i], d, st);
      if t.Go? { Shift(a, b, i + t.width, t.st); }
    }
  }

  /** One turn at the beginning of a text. */
  lemma FirstTurn(piece: string, rest: string, st: Scan, after: Scan)
    requires st.quote != Some('\\') && 0 < |piece| <= 2
    requires TurnOf(piece[0], if |piece| > 1 then Some(piece[1]) else if rest != "" then Some(rest[0]) else None, st)
          == Go(|piece|, after)
    ensures Run(piece + rest, st) == Run(rest, after) && after.quote != Some('\\')
  {
    hide SplitFrom, TurnOf;
    var t := piece + rest;
    assert t[0] == piece[0] && (|piece| > 1 ==> t[1] == piece[1]) && (|piece| == 1 && rest != "" ==> t[1] == rest[0]);
    TurnIs(t, 0, st);
    Behind(piece, rest, after);
  }

  lemma Behind(piece: string, rest: string, st: Scan)
    requires st.quote != Some('\\')
    ensures SplitFrom(piece + rest, |piece|, st) == Run(rest, st)
  {
    Shift(piece, rest, 0, st);
  }

  // ---------- the parts of a word ----------

  /** A character between quotes, as it stands or behind a backslash. */
  datatype Inner = Kept(c: char) | Escaped(c: char)

  /** A part of a word: a character as it stands, one behind a backslash, or a text between quotes. */
  datatype Part = Bare(c: char) | Slashed(c: char) | Quoted(q: char, inside: seq<Inner>)

  predicate InnerOk(q: char, x: Inner) {
    match x
    case Kept(c) => c != q && c != '\\'
    case Escaped(c) => c in {'\\', '\'', '"', '$', '#', ' ', 't'}
  }

  function InnerText(xs: seq<Inner>): string {
    if |xs| == 0 then "" else (if xs[0].Kept? then [xs[0].c] else ['\\', xs[0].c]) + InnerText(xs[1..])
  }

  function InnerWord(xs: seq<Inner>): string {
    if |xs| == 0 then "" else [if xs[0] == Escaped('t') then '\t' else xs[0].c] + InnerWord(xs[1..])
  }

  /** A hash is no comment within a word. */
  predicate PartOk(p: Part, first: bool) {
    match p
    case Bare(c) => !IsSpace(c) && c !in {'\\', '\'', '"', '$'} && (first ==> c != '#')
    case Slashed(c) => c in {'\\', '\'', '"', '$', '#'}
    case Quoted(q, inside) => q in {'\'', '"'} && forall i :: 0 <= i < |inside| ==> InnerOk(q, inside[i])
  }

  function PartText(p: Part): string {
    match p
    case Bare(c) => [c]
    case Slashed(c) => ['\\', c]
    case Quoted(q, inside) => [q] + InnerText(inside) + [q]
  }

  function PartWord(p: Part): string {
    match p
    case Bare(c) => [c]
    case Slashed(c) => [c]
    case Quoted(_, inside) => InnerWord(inside)
  }

  function PartsText(parts: seq<Part>): string {
    if |parts| == 0 then "" else PartText(parts[0]) + PartsText(parts[1..])
  }

  function PartsWord(parts: seq<Part>): string {
    if |parts| == 0 then "" else PartWord(parts[0]) + PartsWord(parts[1..])
  }

  predicate PartsOk(parts: seq<Part>, first: bool) {
    forall i :: 0 <= i < |parts| ==> PartOk(parts[i], first && i == 0)
  }

  lemma InnerStep(q: char, x: Inner, rest: string, st: Scan)
    requires st.quote == Some(q) && q in {'\'', '"'} && InnerOk(q, x)
    ensures Run(InnerText([x]) + rest, st) == Run(rest, Take(st, InnerWord([x])[0]))
  {
    hide Run;
    assert InnerText([x]) == if x.Kept? then [x.c] else ['\\', x.c];
    FirstTurn(InnerText([x]), rest, st, Take(st, InnerWord([x])[0]));
  }

  lemma InnerCons(xs: seq<Inner>)
    requires |xs| > 0
    ensures InnerText(xs) == InnerText([xs[0]]) + InnerText(xs[1..])
    ensures InnerWord(xs) == InnerWord([xs[0]]) + InnerWord(xs[1..]) && |InnerWord([xs[0]])| == 1
  {}

  lemma {:induction false} InnerIsRead(q: char, xs: seq<Inner>, rest: string, st: Scan)
    requires st.quote == Some(q) && q in {'\'', '"'} && st.started && forall i :: 0 <= i < |xs| ==> InnerOk(q, xs[i])
    ensures Run(InnerText(xs) + rest, st) == Run(rest, st.(buf := st.buf + InnerWord(xs)))
  {
    hide Run, InnerOk, InnerText, InnerWord;
    if |xs| == 0 {
      NothingInside();
      assert "" + rest == rest && st.buf + "" == st.buf;
    } else {
      InnerCons(xs);
      var next, more := Take(st, InnerWord([xs[0]])[0]), InnerText(xs[1..]) + rest;
      InnerStep(q, xs[0], more, st);
      assert InnerText(xs) + rest == InnerText([xs[0]]) + more;
      InnerIsRead(q, xs[1..], rest, next);
      assert next.buf + InnerWord(xs[1..]) == st.buf + InnerWord(xs);
    }
  }

  lemma NothingInside()
    ensures InnerText([]) == "" && InnerWord([]) == ""
  {}

  lemma PartIsRead(p: Part, rest: string, st: Scan)
    requires st.quote.None? && PartOk(p, !st.started)
    ensures Run(PartText(p) + rest, st) == Run(rest, st.(buf := st.buf + PartWord(p), started := true))
  {
    hide IsSpace, Finish, Flush, SplitFrom, Run;
    match p
    case Bare(c) => BareIsRead(c, rest, st);
    case Slashed(c) => SlashIsRead(c, rest, st);
    case Quoted(q, inside) =>
      var open, more := st.(quote := Some(q), started := true), [q] + rest;
      assert PartText(p) + rest == [q] + (InnerText(inside) + more);
      QuoteOpens(q, InnerText(inside) + more, st);
      InnerIsRead(q, inside, more, open);
      var full := open.(buf := open.buf + InnerWord(inside));
      QuoteCloses(q, rest, full);
      assert full.(quote := None) == st.(buf := st.buf + PartWord(p), started := true);
  }

  lemma BareIsRead(c: char, rest: string, st: Scan)
    requires st.quote.None? && PartOk(Bare(c), !st.started)
    ensures Run([c] + rest, st) == Run(rest, Take(st, c))
  {
    hide IsSpace, Run;
    BlanksAreSpaces();
    FirstTurn([c], rest, st, Take(st, c));
  }

  lemma SlashIsRead(c: char, rest: string, st: Scan)
    requires st.quote.None? && PartOk(Slashed(c), true)
    ensures Run(['\\', c] + rest, st) == Run(rest, Take(st, c))
  {
    hide IsSpace, Run;
    FirstTurn(['\\', c], rest, st, Take(st, c));
  }

  lemma QuoteOpens(q: char, more: string, st: Scan)
    requires q in {'\'', '"'} && st.quote.None?
    ensures Run([q] + more, st) == Run(more, st.(quote := Some(q), started := true))
  {
    hide IsSpace, Run;
    BlanksAreSpaces();
    FirstTurn([q], more, st, st.(quote := Some(q), started := true));
  }

  lemma QuoteCloses(q: char, rest: string, st: Scan)
    requires q in {'\'', '"'} && st.quote == Some(q)
    ensures Run([q] + rest, st) == Run(rest, st.(quote := None))
  {
    hide IsSpace, Run;
    FirstTurn([q], rest, st, st.(quote := None));
  }

  lemma {:induction false} PartsAreRead(parts: seq<Part>, rest: string, st: Scan)
    requires st.quote.None? && PartsOk(parts, !st.started)
    ensures Run(PartsText(parts) + rest, st)
         == Run(rest, st.(buf := st.buf + PartsWord(parts), started := st.started || |parts| > 0))
  {
    hide Run, PartOk, PartText, PartWord;
    if |parts| == 0 {
      assert PartsText(parts) + rest == rest && st.buf + PartsWord(parts) == st.buf;
    } else {
      assert PartsText(parts) + rest == PartText(parts[0]) + (PartsText(parts[1..]) + rest);
      assert PartOk(parts[0], !st.started);
      PartIsRead(parts[0], PartsText(parts[1..]) + rest, st);
      var next := st.(buf := st.buf + PartWord(parts[0]), started := true);
      forall i | 0 <= i < |parts[1..]| ensures PartOk(parts[1..][i], false && i == 0) {
        assert parts[1..][i] == parts[i + 1] && PartOk(parts[i + 1], !st.started && i + 1 == 0);
      }
      PartsAreRead(parts[1..], rest, next);
      assert next.buf + PartsWord(parts[1..]) == st.buf + PartsWord(parts);
    }
  }

  // ---------- words and gaps ----------

  datatype Item = Gap(text: string) | Word(parts: seq<Part>)

  predicate ItemOk(x: Item) {
    match x
    case Gap(t) => t in {" ", "\t", "\\ ", "\\t", "\\_"}
    case Word(parts) => |parts| > 0 && PartsOk(parts, true)
  }

  /** Two words have a gap between them. */
  predicate ItemsOk(items: seq<Item>) {
    && (forall i :: 0 <= i < |items| ==> ItemOk(items[i]))
    && forall i, j :: 0 <= i && j == i + 1 < |items| && items[i].Word? ==> items[j].Gap?
  }

  function ItemText(x: Item): string {
    match x
    case Gap(t) => t
    case Word(parts) => PartsText(parts)
  }

  function ItemsText(items: seq<Item>): string {
    if |items| == 0 then "" else ItemsText(items[..|items| - 1]) + ItemText(items[|items| - 1])
  }

  function WordsOf(items: seq<Item>): seq<string> {
    if |items| == 0 then []
    else
      WordsOf(items[..|items| - 1])
      + match items[|items| - 1] case Gap(_) => [] case Word(parts) => [PartsWord(parts)]
  }

  predicate EndsInWord(items: seq<Item>) { |items| > 0 && items[|items| - 1].Word? }

  /** Where the scan stands behind the items: a word at the end is not closed yet. */
  function Standing(items: seq<Item>): Scan {
    if EndsInWord(items) then
      Scan(WordsOf(items[..|items| - 1]), PartsWord(items[|items| - 1].parts), None, true)
    else Scan(WordsOf(items), "", None, false)
  }

  lemma NoTwoWords(items: seq<Item>)
    requires ItemsOk(items) && EndsInWord(items)
    ensures !EndsInWord(items[..|items| - 1])
  {
    var i, j := |items| - 2, |items| - 1;
    assert items[j].Word?;
    assert i >= 0 ==> !items[i].Word?;
  }

  /** After the items the scan stands behind them, unless they have more words than it takes. */
  lemma {:induction false} ItemsAreRead(items: seq<Item>, rest: string)
    requires ItemsOk(items)
    ensures Run(ItemsText(items) + rest, START)
         == if |Standing(items).tokens| > 16 then None else Run(rest, Standing(items))
    decreases |items|
  {
    hide Run, PartsText, PartsWord, PartsOk;
    if |items| == 0 {
      assert ItemsText(items) + rest == rest;
    } else {
      var init, last := items[..|items| - 1], items[|items| - 1];
      assert forall i :: 0 <= i < |init| ==> init[i] == items[i];
      ItemsAreRead(init, ItemText(last) + rest);
      assert ItemsText(items) + rest == ItemsText(init) + (ItemText(last) + rest);
      if last.Gap? {
        assert ItemOk(last);
        GapIsRead(last.text, rest, Standing(init));
        if EndsInWord(init) {
          assert WordsOf(init) == Standing(init).tokens + [Standing(init).buf];
        }
        assert WordsOf(items) == WordsOf(init);
      } else {
        assert ItemOk(last);
        NoTwoWords(items);
        PartsAreRead(last.parts, rest, Standing(init));
        assert "" + PartsWord(last.parts) == PartsWord(last.parts);
      }
    }
  }

  lemma GapIsRead(gap: string, rest: string, st: Scan)
    requires gap in {" ", "\t", "\\ ", "\\t", "\\_"} && st.quote.None?
    ensures Run(gap + rest, st)
         == if !st.started then Run(rest, st)
            else if |st.tokens| >= 16 then None
            else Run(rest, Scan(st.tokens + [st.buf], "", None, false))
  {
    hide IsSpace, SplitFrom;
    BlanksAreSpaces();
    if Flush(st).Some? {
      FirstTurn(gap, rest, st, Flush(st).value);
    } else {
      TurnIs(gap + rest, 0, st);
      assert (gap + rest)[0] == gap[0] && (|gap| > 1 ==> (gap + rest)[1] == gap[1]);
    }
  }

  // ---------- the end ----------

  /** The scan ends with the text, at a comment between words, and at `\c`. */
  predicate TailOk(items: seq<Item>, tail: string) {
    tail == "" || (tail[0] == '#' && !EndsInWord(items)) || (|tail| > 1 && tail[0] == '\\' && tail[1] == 'c')
  }

  lemma TailIsRead(items: seq<Item>, tail: string)
    requires TailOk(items, tail) && |Standing(items).tokens| <= 16
    ensures Run(tail, Standing(items)) == if |WordsOf(items)| > 16 then None else Some(WordsOf(items))
  {
    hide IsSpace, PartsWord;
    BlanksAreSpaces();
    if EndsInWord(items) { assert WordsOf(items) == Standing(items).tokens + [Standing(items).buf]; }
  }

  /** `${` somewhere in the text. */
  predicate HasBrace(s: string) { exists i, j :: 0 <= i && j == i + 1 < |s| && s[i] == '$' && s[j] == '{' }

  lemma BraceIsTwo(s: string)
    ensures HasBrace(s) <==> Contains2(s, '$', '{')
  {
    if Contains2(s, '$', '{') {
      var i :| 0 <= i < |s| - 1 && s[i] == '$' && s[i + 1] == '{';
      var j := i + 1;
      assert s[j] == '{';
    }
  }

  /**
   However a list of words is written, it is read back: refused are only `${`, more than 512 characters and
   more than 16 words.
   */
  lemma WrittenIsRead(items: seq<Item>, tail: string)
    requires ItemsOk(items) && TailOk(items, tail)
    ensures var t := ItemsText(items) + tail;
      SplitString(t) == if HasBrace(t) || |t| > 512 || |WordsOf(items)| > 16 then None else Some(WordsOf(items))
  {
    hide ItemsOk, Standing, TailOk, ItemsText, Contains2, HasBrace;
    var t := ItemsText(items) + tail;
    BraceIsTwo(t);
    ItemsAreRead(items, tail);
    StandingCounts(items);
    if |Standing(items).tokens| <= 16 { TailIsRead(items, tail); }
  }

  lemma StandingCounts(items: seq<Item>)
    ensures |Standing(items).tokens| <= |WordsOf(items)|
  {}

  // ---------- what is refused ----------

  /** What may not stand outside quotes: a lone dollar, other white space, other escapes, a backslash at the end. */
  predicate BadBare(bad: string) {
    && bad != ""
    && ((bad[0] != ' ' && bad[0] != '\t' && IsSpace(bad[0])) || bad[0] == '$' || bad == "\\"
        || (|bad| > 1 && bad[0] == '\\' && bad[1] !in {'c', ' ', 't', '_', '\\', '\'', '"', '$', '#'}))
  }

  /** And within them: the end of the text, other escapes, a backslash at the end. */
  predicate BadInner(bad: string) {
    || bad == "" || bad == "\\"
    || (|bad| > 1 && bad[0] == '\\' && bad[1] !in {'c', ' ', 't', '\\', '\'', '"', '$', '#'})
  }

  lemma BadBareStops(bad: string, st: Scan)
    requires BadBare(bad) && st.quote.None?
    ensures Run(bad, st).None?
  {
    hide SplitFrom, Finish, Flush, IsSpace;
    BlanksAreSpaces();
    TurnIs(bad, 0, st);
  }

  lemma BadInnerStops(bad: string, st: Scan)
    requires BadInner(bad) && st.quote.Some? && st.quote.value != '\\'
    ensures Run(bad, st).None?
  {
    hide Flush, IsSpace;
    if bad != "" { TurnIs(bad, 0, st); }
  }

  /** Behind any words, a part that has no meaning refuses the whole text. */
  lemma RefusedBare(items: seq<Item>, bad: string)
    requires ItemsOk(items) && BadBare(bad)
    ensures SplitString(ItemsText(items) + bad).None?
  {
    hide ItemsOk, ItemsText, Contains2, BadBare, Run, WordsOf;
    ItemsAreRead(items, bad);
    BadBareStops(bad, Standing(items));
    assert SplitFrom(ItemsText(items) + bad, 0, START) == Run(ItemsText(items) + bad, START) by { RunIs(items, bad); }
  }

  lemma RunIs(items: seq<Item>, bad: string)
    ensures SplitFrom(ItemsText(items) + bad, 0, START) == Run(ItemsText(items) + bad, START)
  {}

  /** So does a quoted text that is not closed, or that breaks off in a part without meaning. */
  lemma RefusedQuoted(items: seq<Item>, q: char, inside: seq<Inner>, bad: string)
    requires ItemsOk(items) && q in {'\'', '"'} && BadInner(bad)
      && forall i :: 0 <= i < |inside| ==> InnerOk(q, inside[i])
    ensures SplitString(ItemsText(items) + [q] + InnerText(inside) + bad).None?
  {
    hide ItemsOk, ItemsText, Contains2, BadInner, WordsOf, InnerOk, InnerText, InnerWord, SplitFrom;
    var more := InnerText(inside) + bad;
    assert ItemsText(items) + [q] + InnerText(inside) + bad == ItemsText(items) + ([q] + more);
    ItemsAreRead(items, [q] + more);
    var st := Standing(items);
    var open := st.(quote := Some(q), started := true);
    QuoteOpens(q, more, st);
    InnerIsRead(q, inside, bad, open);
    BadInnerStops(bad, open.(buf := open.buf + InnerWord(inside)));
  }

  /** `\c` within quotes ends the scan, and the quoted text counts although its quote is open. */
  lemma StopInQuotes(items: seq<Item>, q: char, inside: seq<Inner>, rest: string)
    requires ItemsOk(items) && q in {'\'', '"'} && forall i :: 0 <= i < |inside| ==> InnerOk(q, inside[i])
    requires !EndsInWord(items) && |WordsOf(items)| < 16
    ensures var t := ItemsText(items) + [q] + InnerText(inside) + "\\c" + rest;
      SplitString(t) == if HasBrace(t) || |t| > 512 then None else Some(WordsOf(items) + [InnerWord(inside)])
  {
    hide ItemsOk, ItemsText, Contains2, HasBrace, WordsOf, InnerOk, InnerText, InnerWord, SplitFrom;
    var more := InnerText(inside) + ("\\c" + rest);
    var t := ItemsText(items) + [q] + InnerText(inside) + "\\c" + rest;
    assert t == ItemsText(items) + ([q] + more);
    BraceIsTwo(t);
    ItemsAreRead(items, [q] + more);
    var st := Standing(items);
    var open := st.(quote := Some(q), started := true);
    QuoteOpens(q, more, st);
    InnerIsRead(q, inside, "\\c" + rest, open);
    assert open.buf + InnerWord(inside) == InnerWord(inside);
    StopsAtC(rest, open.(buf := InnerWord(inside)));
  }

  lemma StopsAtC(rest: string, st: Scan)
    requires st.quote.Some? && st.quote.value != '\\' && st.started && |st.tokens| < 16
    ensures Run("\\c" + rest, st) == Some(st.tokens + [st.buf])
  {
    hide SplitFrom, IsSpace;
    TurnIs("\\c" + rest, 0, st);
  }
}
