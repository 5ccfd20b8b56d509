/**
 The display text of omg_cli/agent_policy_ux.py: truncation, padding and wrapping by columns.  Which
 characters take two columns is a parameter, `wide`.
 */
module TextLayout {
  import opened Text

  type Wide = char -> bool

  const ELLIPSIS := "…"

  // ---------- columns ----------

  function CharWidth(wide: Wide, c: char): nat { if wide(c) then 2 else 1 }

  function Width(wide: Wide, s: string): nat {
    if |s| == 0 then 0 else Width(wide, s[..|s| - 1]) + CharWidth(wide, s[|s| - 1])
  }

  lemma {:induction false} WidthAppend(wide: Wide, a: string, b: string)
    ensures Width(wide, a + b) == Width(wide, a) + Width(wide, b)
    decreases |b|
  {
    if |b| == 0 {
      assert a + b == a;
    } else {
      assert (a + b)[..|a| + |b| - 1] == a + b[..|b| - 1];
      WidthAppend(wide, a, b[..|b| - 1]);
    }
  }

  lemma WidthOne(wide: Wide, c: char)
    ensures Width(wide, [c]) == CharWidth(wide, c)
  {
    assert [c][..0] == "";
  }

  lemma WidthSplit(wide: Wide, s: string, k: nat)
    requires k <= |s|
    ensures Width(wide, s) == Width(wide, s[..k]) + Width(wide, s[k..])
  {
    assert s == s[..k] + s[k..];
    WidthAppend(wide, s[..k], s[k..]);
  }

  /** How many characters from the front fit. */
  function FitLen(wide: Wide, s: string, width: int): (k: nat)
    ensures k <= |s|
  {
    if |s| == 0 || CharWidth(wide, s[0]) > width then 0
    else 1 + FitLen(wide, s[1..], width - CharWidth(wide, s[0]))
  }

  /** They fit, and one more would not. */
  lemma {:induction false} FitLenIsLongest(wide: Wide, s: string, width: nat)
    ensures var k := FitLen(wide, s, width);
      && Width(wide, s[..k]) <= width
      && (k < |s| ==> Width(wide, s[..k + 1]) > width)
    decreases |s|
  {
    var k := FitLen(wide, s, width);
    if |s| > 0 {
      WidthOne(wide, s[0]);
      if CharWidth(wide, s[0]) <= width {
        FitLenIsLongest(wide, s[1..], width - CharWidth(wide, s[0]));
        assert s[..k] == [s[0]] + s[1..][..k - 1];
        WidthAppend(wide, [s[0]], s[1..][..k - 1]);
        if k < |s| {
          assert s[..k + 1] == [s[0]] + s[1..][..k];
          WidthAppend(wide, [s[0]], s[1..][..k]);
        }
      } else {
        assert s[..1] == [s[0]];
      }
    }
  }

  lemma {:induction false} FitLenAll(wide: Wide, s: string, width: nat)
    ensures FitLen(wide, s, width) == |s| <==> Width(wide, s) <= width
  {
    var k := FitLen(wide, s, width);
    FitLenIsLongest(wide, s, width);
    assert s[..|s|] == s;
    if k < |s| { WidthSplit(wide, s, k + 1); }
  }

  // ---------- truncation and padding ----------

  /** `truncate_display` */
  function Truncated(wide: Wide, s: string, width: int): string {
    if width <= 0 then ""
    else if Width(wide, s) <= width then s
    else if width <= Width(wide, ELLIPSIS) then ELLIPSIS[..if width < |ELLIPSIS| then width else |ELLIPSIS|]
    else s[..FitLen(wide, s, width - Width(wide, ELLIPSIS))] + ELLIPSIS
  }

  /** Never too wide; where it cuts, it keeps as much as leaves room for the ellipsis. */
  lemma TruncatedFits(wide: Wide, s: string, width: nat)
    requires !wide(ELLIPSIS[0])
    ensures Width(wide, Truncated(wide, s, width)) <= width
    ensures Width(wide, s) > width > 1 ==>
      exists k :: 0 <= k < |s| && Truncated(wide, s, width) == s[..k] + ELLIPSIS && Width(wide, s[..k + 1]) > width - 1
  {
    WidthOne(wide, ELLIPSIS[0]);
    assert ELLIPSIS == [ELLIPSIS[0]] && ELLIPSIS[..1] == ELLIPSIS;
    if Width(wide, s) > width > 1 {
      var k := FitLen(wide, s, width - 1);
      FitLenIsLongest(wide, s, width - 1);
      FitLenAll(wide, s, width - 1);
      WidthAppend(wide, s[..k], ELLIPSIS);
      assert Truncated(wide, s, width) == s[..k] + ELLIPSIS;
    }
  }

  function Padded(wide: Wide, s: string, width: int): string {
    var clipped := Truncated(wide, s, width);
    clipped + Spaces(if width > Width(wide, clipped) then width - Width(wide, clipped) else 0)
  }

  lemma {:induction false} WidthOfSpaces(wide: Wide, n: nat)
    requires !wide(' ')
    ensures Width(wide, Spaces(n)) == n
  {
    if n > 0 {
      assert Spaces(n)[..n - 1] == Spaces(n - 1);
      WidthOfSpaces(wide, n - 1);
    }
  }

  /** Padded text fills its columns exactly. */
  lemma PaddedFills(wide: Wide, s: string, width: nat)
    requires !wide(' ') && !wide(ELLIPSIS[0])
    ensures Width(wide, Padded(wide, s, width)) == width
  {
    hide Truncated;
    TruncatedFits(wide, s, width);
    var clipped := Truncated(wide, s, width);
    WidthOfSpaces(wide, width - Width(wide, clipped));
    WidthAppend(wide, clipped, Spaces(width - Width(wide, clipped)));
  }

  lemma PaddedToNothing(wide: Wide, s: string, width: int)
    requires width <= 0
    ensures Padded(wide, s, width) == ""
  {}

  // ---------- splitting a token ----------

  /** `_fit_chars`: at least one character, even where it is too wide. */
  function HeadLen(wide: Wide, s: string, width: int): (k: nat)
    ensures k <= |s| && (width > 0 && |s| > 0 ==> k > 0) && (width <= 0 ==> k == 0)
  {
    if width <= 0 then 0
    else
      var k := FitLen(wide, s, width);
      if k == 0 && |s| > 0 then 1 else k
  }

  lemma HeadFits(wide: Wide, s: string, width: nat)
    requires width >= 2
    ensures Width(wide, s[..HeadLen(wide, s, width)]) <= width
  {
    FitLenIsLongest(wide, s, width);
    if |s| > 0 { WidthOne(wide, s[0]); }
  }

  /** `_wrap_unbroken` for a positive width. */
  function Pieces(wide: Wide, s: string, width: nat): seq<string>
    requires width > 0
    decreases |s|
  {
    if |s| == 0 then []
    else
      var k := HeadLen(wide, s, width);
      [s[..k]] + Pieces(wide, s[k..], width)
  }

  function Unbroken(wide: Wide, s: string, width: nat): seq<string>
    requires width > 0
  {
    if Width(wide, s) <= width then [s] else Pieces(wide, s, width)
  }

  function Concat(lines: seq<string>): string {
    if |lines| == 0 then "" else lines[0] + Concat(lines[1..])
  }

  predicate AllFit(wide: Wide, lines: seq<string>, width: int) {
    forall i :: 0 <= i < |lines| ==> Width(wide, lines[i]) <= width
  }

  lemma {:induction false} PiecesKeep(wide: Wide, s: string, width: nat)
    requires width > 0
    ensures Concat(Pieces(wide, s, width)) == s && (width >= 2 ==> AllFit(wide, Pieces(wide, s, width), width))
    decreases |s|
  {
    if |s| > 0 {
      var k := HeadLen(wide, s, width);
      var rest := Pieces(wide, s[k..], width);
      PiecesKeep(wide, s[k..], width);
      if width >= 2 { HeadFits(wide, s, width); }
      assert Pieces(wide, s, width)[1..] == rest;
      assert s[..k] + s[k..] == s;
    }
  }

  // ---------- wrapping ----------

  function Ink(s: string): string {
    if |s| == 0 then "" else (if IsSpace(s[0]) then "" else [s[0]]) + Ink(s[1..])
  }

  /** The length of the first run of non-space characters. */
  function WordLen(s: string): (k: nat)
    ensures k <= |s| && (|s| > 0 && !IsSpace(s[0]) ==> k > 0)
  {
    if |s| == 0 || IsSpace(s[0]) then 0 else 1 + WordLen(s[1..])
  }

  /** `split()` */
  function Words(s: string): seq<string>
    decreases |s|
  {
    if |s| == 0 then []
    else if IsSpace(s[0]) then Words(s[1..])
    else [s[..WordLen(s)]] + Words(s[WordLen(s)..])
  }

  /** The lines done, the prefix of the line being filled, and its words. */
  datatype Filling = Filling(lines: seq<string>, prefix: string, parts: seq<string>)

  function Current(st: Filling): string { st.prefix + Join(st.parts, ' ') }

  function Flushed(st: Filling, cont: string): Filling { Filling(st.lines + [Current(st)], cont, []) }

  /** The prefix for the next piece of a token: one that leaves no column gets a line of its own. */
  function NextPrefix(wide: Wide, prefix: string, cont: string, width: nat): string {
    if Width(wide, prefix) < width then prefix else if Width(wide, cont) < width then cont else ""
  }

  /** A token broken over lines. */
  function Broken(wide: Wide, rest: string, prefix: string, cont: string, width: nat): seq<string>
    requires width > 0
    decreases |rest|
  {
    if |rest| == 0 then []
    else
      var p := NextPrefix(wide, prefix, cont, width);
      var k := HeadLen(wide, rest, width - Width(wide, p));
      (if Width(wide, prefix) < width then [] else [prefix]) + [p + rest[..k]]
          + Broken(wide, rest[k..], cont, cont, width)
  }

  function Fill(wide: Wide, st: Filling, token: string, cont: string, width: nat): Filling
    requires width > 0
  {
    if Width(wide, st.prefix + Join(st.parts + [token], ' ')) <= width then st.(parts := st.parts + [token])
    else
      var next := if |st.parts| > 0 then Flushed(st, cont) else st;
      if |st.parts| > 0 && Width(wide, next.prefix + token) <= width then next.(parts := [token])
      else Filling(next.lines + Broken(wide, token, next.prefix, cont, width), cont, [])
  }

  function FillAll(wide: Wide, st: Filling, tokens: seq<string>, cont: string, width: nat): Filling
    requires width > 0
  {
    if |tokens| == 0 then st
    else Fill(wide, FillAll(wide, st, tokens[..|tokens| - 1], cont, width), tokens[|tokens| - 1], cont, width)
  }

  function Lead(text: string): string { text[..IndentOf(text)] }

  /** `wrap_display` with the indent of the lines after the first. */
  function Wrapped(wide: Wide, text: string, width: int, cont: string): seq<string> {
    if width < 1 then [""]
    else
      var tokens := Words(text[IndentOf(text)..]);
      if |tokens| == 0 then Unbroken(wide, text, width)
      else
        var st := FillAll(wide, Filling([], Lead(text), []), tokens, cont, width);
        if |st.parts| > 0 then Flushed(st, cont).lines else st.lines
  }

  // ---------- nothing is lost ----------

  lemma {:induction false} InkAppend(a: string, b: string)
    ensures Ink(a + b) == Ink(a) + Ink(b)
  {
    if |a| == 0 {
      assert a + b == b;
    } else {
      assert (a + b)[1..] == a[1..] + b;
      InkAppend(a[1..], b);
    }
  }

  lemma {:induction false} BlankHasNoInk(s: string)
    requires Blank(s)
    ensures Ink(s) == ""
  {
    if |s| > 0 { BlankHasNoInk(s[1..]); }
  }

  lemma {:induction false} ConcatAppend(a: seq<string>, b: seq<string>)
    ensures Concat(a + b) == Concat(a) + Concat(b)
  {
    if |a| == 0 {
      assert a + b == b;
    } else {
      assert (a + b)[1..] == a[1..] + b;
      ConcatAppend(a[1..], b);
    }
  }

  lemma {:induction false} InkOfJoin(parts: seq<string>)
    ensures Ink(Join(parts, ' ')) == Ink(Concat(parts))
  {
    if |parts| == 1 {
      assert parts[0] + Concat(parts[1..]) == parts[0];
    } else if |parts| > 1 {
      InkOfJoin(parts[1..]);
      InkAppend(parts[0] + [' '], Join(parts[1..], ' '));
      InkAppend(parts[0], [' ']);
      InkAppend(parts[0], Concat(parts[1..]));
      BlankHasNoInk([' ']);
    }
  }

  lemma {:induction false} InkOfWords(s: string)
    ensures Ink(Concat(Words(s))) == Ink(s)
    decreases |s|
  {
    if |s| > 0 {
      if IsSpace(s[0]) {
        InkOfWords(s[1..]);
      } else {
        var k := WordLen(s);
        InkOfWords(s[k..]);
        var rest := Words(s[k..]);
        assert Words(s)[1..] == rest;
        InkAppend(s[..k], Concat(rest));
        InkAppend(s[..k], s[k..]);
        assert s[..k] + s[k..] == s;
      }
    }
  }

  /** A line of its own for a blank prefix, a line with a head behind a blank one, and more lines. */
  lemma InkOfLines(own: seq<string>, p: string, head: string, more: seq<string>)
    requires (own == [] || (|own| == 1 && Blank(own[0]))) && Blank(p)
    ensures Ink(Concat(own + [p + head] + more)) == Ink(head) + Ink(Concat(more))
  {
    hide Ink, Blank, Concat;
    InkOfConcat(own + [p + head], more);
    InkOfPush(own, p + head);
    InkAppend(p, head);
    BlankHasNoInk(p);
    OwnHasNoInk(own);
  }

  lemma OwnHasNoInk(own: seq<string>)
    requires own == [] || (|own| == 1 && Blank(own[0]))
    ensures Ink(Concat(own)) == ""
  {
    hide Ink, Blank;
    NoInk();
    if |own| == 1 {
      assert own == [] + [own[0]];
      InkOfPush([], own[0]);
      BlankHasNoInk(own[0]);
    }
  }

  lemma InkOfConcat(a: seq<string>, b: seq<string>)
    ensures Ink(Concat(a + b)) == Ink(Concat(a)) + Ink(Concat(b))
  {
    ConcatAppend(a, b);
    InkAppend(Concat(a), Concat(b));
  }

  lemma {:induction false} InkOfBroken(wide: Wide, rest: string, prefix: string, cont: string, width: nat)
    requires width > 0 && Blank(prefix) && Blank(cont)
    ensures Ink(Concat(Broken(wide, rest, prefix, cont, width))) == Ink(rest)
    decreases |rest|
  {
    hide NextPrefix, Ink, Blank, HeadLen, Width, Concat;
    if |rest| > 0 {
      var p := NextPrefix(wide, prefix, cont, width);
      assert Blank(p) && Width(wide, p) < width by {
        NextPrefixFacts(wide, prefix, cont, width);
        assert Blank("") by { EmptyIsBlank(); }
      }
      var k := HeadLen(wide, rest, width - Width(wide, p));
      InkOfBroken(wide, rest[k..], cont, cont, width);
      var own := if Width(wide, prefix) < width then [] else [prefix];
      InkOfLines(own, p, rest[..k], Broken(wide, rest[k..], cont, cont, width));
      InkAppend(rest[..k], rest[k..]);
      assert rest[..k] + rest[k..] == rest;
    } else {
      assert rest == "" && Ink(Concat([])) == "" == Ink("") by { NoInk(); EmptyIsBlank(); }
    }
  }

  lemma EmptyIsBlank()
    ensures Blank("") && Ink("") == ""
  {}

  lemma NextPrefixFacts(wide: Wide, prefix: string, cont: string, width: nat)
    requires width > 0
    ensures var p := NextPrefix(wide, prefix, cont, width);
      p in {prefix, cont, ""} && Width(wide, p) < width
  {}

  function FillingInk(st: Filling): string { Ink(Concat(st.lines)) + Ink(Concat(st.parts)) }

  lemma InkOfFlush(st: Filling, cont: string)
    requires Blank(st.prefix)
    ensures Ink(Concat(Flushed(st, cont).lines)) == FillingInk(st)
  {
    var line := Current(st);
    ConcatAppend(st.lines, [line]);
    assert [line][1..] == [] && line + "" == line;
    InkAppend(Concat(st.lines), line);
    InkAppend(st.prefix, Join(st.parts, ' '));
    BlankHasNoInk(st.prefix);
    InkOfJoin(st.parts);
  }

  lemma InkOfPush(parts: seq<string>, token: string)
    ensures Ink(Concat(parts + [token])) == Ink(Concat(parts)) + Ink(token)
  {
    ConcatAppend(parts, [token]);
    assert [token][1..] == [] && token + "" == token;
    InkAppend(Concat(parts), token);
  }

  lemma InkOfFill(wide: Wide, st: Filling, token: string, cont: string, width: nat)
    requires width > 0 && Blank(st.prefix) && Blank(cont)
    ensures var t := Fill(wide, st, token, cont, width);
      Blank(t.prefix) && FillingInk(t) == FillingInk(st) + Ink(token)
  {
    hide Broken, Ink, Flushed, Blank, Current, Concat, Width, Join, FillingInk;
    var next := if |st.parts| > 0 then Flushed(st, cont) else st;
    assert Blank(next.prefix) && FillingInk(next) == FillingInk(st) && next.parts == [] by {
      if |st.parts| > 0 { FlushParts(st, cont); }
    }
    InkOfPart(st, token);
    InkOfPart(next, token);
    assert [] + [token] == [token];
    InkOfBroken(wide, token, next.prefix, cont, width);
    InkOfMore(next, Broken(wide, token, next.prefix, cont, width), cont);
  }

  lemma InkOfPart(st: Filling, token: string)
    ensures FillingInk(st.(parts := st.parts + [token])) == FillingInk(st) + Ink(token)
  {
    hide Ink, Concat;
    InkOfPush(st.parts, token);
  }

  lemma InkOfMore(st: Filling, lines: seq<string>, cont: string)
    requires st.parts == []
    ensures FillingInk(Filling(st.lines + lines, cont, [])) == FillingInk(st) + Ink(Concat(lines))
  {
    hide Ink, Concat;
    NoInk();
    InkOfConcat(st.lines, lines);
  }

  lemma FlushParts(st: Filling, cont: string)
    requires Blank(st.prefix) && Blank(cont)
    ensures Flushed(st, cont).parts == [] && Flushed(st, cont).prefix == cont
    ensures FillingInk(Flushed(st, cont)) == FillingInk(st)
  {
    InkOfFlush(st, cont);
  }

  lemma NoInk()
    ensures Ink(Concat([])) == ""
  {}

  lemma {:induction false} InkOfFillAll(wide: Wide, st: Filling, tokens: seq<string>, cont: string, width: nat)
    requires width > 0 && Blank(st.prefix) && Blank(cont)
    ensures var t := FillAll(wide, st, tokens, cont, width);
      Blank(t.prefix) && FillingInk(t) == FillingInk(st) + Ink(Concat(tokens))
    decreases |tokens|
  {
    hide Fill, Ink, Blank, FillingInk;
    if |tokens| == 0 {
      assert Ink(Concat(tokens)) == "" by { NoInk(); }
    } else {
      var init, last := tokens[..|tokens| - 1], tokens[|tokens| - 1];
      InkOfFillAll(wide, st, init, cont, width);
      InkOfFill(wide, FillAll(wide, st, init, cont, width), last, cont, width);
      InkOfPush(init, last);
      assert init + [last] == tokens;
    }
  }

  lemma {:induction false} LeadIsBlank(text: string)
    ensures Blank(Lead(text))
  {
    if |text| > 0 && text[0] == ' ' {
      LeadIsBlank(text[1..]);
      assert Lead(text) == [' '] + Lead(text[1..]);
    }
  }

  /** No non-space character is lost, added or moved, for any positive width and any blank indent. */
  lemma WrappingKeepsInk(wide: Wide, text: string, width: nat, cont: string)
    requires width >= 1 && Blank(cont)
    ensures Ink(Concat(Wrapped(wide, text, width, cont))) == Ink(text)
  {
    hide Fill, FillAll, Ink, Blank, Words, Pieces, Flushed;
    var n := IndentOf(text);
    var tokens := Words(text[n..]);
    LeadIsBlank(text);
    if |tokens| == 0 {
      PiecesKeep(wide, text, width);
      assert [text][1..] == [] && text + "" == text;
    } else {
      var st0 := Filling([], Lead(text), []);
      assert FillingInk(st0) == "" by { NoInk(); }
      InkOfFillAll(wide, st0, tokens, cont, width);
      var st := FillAll(wide, st0, tokens, cont, width);
      InkOfFlush(st, cont);
      InkOfWords(text[n..]);
      InkAppend(Lead(text), text[n..]);
      BlankHasNoInk(Lead(text));
      assert Lead(text) + text[n..] == text;
      if |st.parts| == 0 { assert FillingInk(st) == Ink(Concat(st.lines)) by { assert st.parts == []; NoInk(); } }
    }
  }

  // ---------- nothing is too wide, exactly when ----------

  /**
   The indent fits, and what it leaves is no column at all, when it gets a line of its own, or room for
   a character of two columns.
   */
  predicate Leaves(wide: Wide, prefix: string, width: nat) {
    Width(wide, prefix) <= width && Width(wide, prefix) + 1 != width
  }

  predicate FillingFits(wide: Wide, st: Filling, width: nat) {
    && AllFit(wide, st.lines, width) && Leaves(wide, st.prefix, width)
    && (|st.parts| > 0 ==> Width(wide, Current(st)) <= width)
  }

  lemma {:induction false} BrokenFits(wide: Wide, rest: string, prefix: string, cont: string, width: nat)
    requires width >= 2 && Leaves(wide, prefix, width) && Leaves(wide, cont, width)
    ensures AllFit(wide, Broken(wide, rest, prefix, cont, width), width)
    decreases |rest|
  {
    if |rest| > 0 {
      var p := NextPrefix(wide, prefix, cont, width);
      var budget := width - Width(wide, p);
      var k := HeadLen(wide, rest, budget);
      assert Width(wide, "") == 0;
      HeadFits(wide, rest, budget);
      WidthAppend(wide, p, rest[..k]);
      BrokenFits(wide, rest[k..], cont, cont, width);
    }
  }

  lemma FillFits(wide: Wide, st: Filling, token: string, cont: string, width: nat)
    requires width >= 2 && FillingFits(wide, st, width) && Leaves(wide, cont, width)
    ensures FillingFits(wide, Fill(wide, st, token, cont, width), width)
  {
    hide Broken, Width;
    var next := if |st.parts| > 0 then Flushed(st, cont) else st;
    BrokenFits(wide, token, next.prefix, cont, width);
    assert Join([token], ' ') == token;
  }

  lemma {:induction false} FillAllFits(wide: Wide, st: Filling, tokens: seq<string>, cont: string, width: nat)
    requires width >= 2 && FillingFits(wide, st, width) && Leaves(wide, cont, width)
    ensures FillingFits(wide, FillAll(wide, st, tokens, cont, width), width)
    decreases |tokens|
  {
    hide Fill, FillingFits;
    if |tokens| > 0 {
      FillAllFits(wide, st, tokens[..|tokens| - 1], cont, width);
      FillFits(wide, FillAll(wide, st, tokens[..|tokens| - 1], cont, width), tokens[|tokens| - 1], cont, width);
    }
  }

  /** Where both indents leave no column or at least two, no line is wider than the limit. */
  lemma WrappingFits(wide: Wide, text: string, width: nat, cont: string)
    requires width >= 2 && Leaves(wide, Lead(text), width) && Leaves(wide, cont, width)
    ensures AllFit(wide, Wrapped(wide, text, width, cont), width)
  {
    hide Fill, FillAll, Words, Pieces, Width;
    PiecesKeep(wide, text, width);
    FillAllFits(wide, Filling([], Lead(text), []), Words(text[IndentOf(text)..]), cont, width);
  }

  /** A word of one character, n times. */
  function Run(c: char, n: nat): (s: string)
    ensures |s| == n && forall i :: 0 <= i < n ==> s[i] == c
  {
    seq(n, _ => c)
  }

  lemma {:induction false} RunWidth(wide: Wide, c: char, n: nat)
    requires wide(c)
    ensures Width(wide, Run(c, n)) == 2 * n
  {
    if n > 0 {
      assert Run(c, n)[..n - 1] == Run(c, n - 1);
      RunWidth(wide, c, n - 1);
    }
  }

  lemma {:induction false} WordOnly(s: string)
    requires |s| > 0 && forall i :: 0 <= i < |s| ==> !IsSpace(s[i])
    ensures WordLen(s) == |s| && Words(s) == [s]
  {
    if |s| > 1 { WordOnly(s[1..]); }
    assert s[..|s|] == s && s[|s|..] == "";
  }

  /** One word behind its indent, too long for the line, is broken. */
  lemma OneWordWrapped(wide: Wide, n: nat, word: string, width: nat, cont: string)
    requires width >= 1 && |word| > 0 && (forall i :: 0 <= i < |word| ==> !IsSpace(word[i]))
    requires Width(wide, Spaces(n) + word) > width
    ensures Lead(Spaces(n) + word) == Spaces(n)
    ensures Wrapped(wide, Spaces(n) + word, width, cont) == Broken(wide, word, Spaces(n), cont, width)
  {
    hide Broken, Width, Words, IsSpace;
    var lead := Spaces(n);
    var text := lead + word;
    assert word[0] != ' ' by { BlankIsSpace(); }
    IndentOfSpaces(n, word);
    assert Lead(text) == lead && text[n..] == word;
    WordOnly(word);
    var st0 := Filling([], lead, []);
    assert [] + [word] == [word] && Join([word], ' ') == word && [word][..0] == [];
    assert FillAll(wide, st0, [word], cont, width) == Fill(wide, st0, word, cont, width);
    assert [] + Broken(wide, word, lead, cont, width) == Broken(wide, word, lead, cont, width);
  }

  lemma BlankIsSpace()
    ensures IsSpace(' ')
  {}

  /** The first lines of a long run of wide characters, from each kind of indent. */
  lemma BrokenRun(wide: Wide, c: char, n: nat, prefix: string, cont: string, width: nat) returns (k: nat)
    requires wide(c) && width >= 1 && n > 0
    ensures 0 < k <= n && 2 * k <= width + 1
    ensures var p := NextPrefix(wide, prefix, cont, width);
      var own := if Width(wide, prefix) < width then [] else [prefix];
      && Broken(wide, Run(c, n), prefix, cont, width)
           == own + [p + Run(c, k)] + Broken(wide, Run(c, n - k), cont, cont, width)
      && Width(wide, p + Run(c, k)) == Width(wide, p) + 2 * k
  {
    hide Width, NextPrefix;
    var p := NextPrefix(wide, prefix, cont, width);
    NextPrefixFacts(wide, prefix, cont, width);
    var rest := Run(c, n);
    var budget := width - Width(wide, p);
    k := HeadLen(wide, rest, budget);
    assert rest[..k] == Run(c, k) && rest[k..] == Run(c, n - k);
    RunWidth(wide, c, k);
    WidthAppend(wide, p, Run(c, k));
    FitLenIsLongest(wide, rest, budget);
  }

  lemma OverAt(wide: Wide, lines: seq<string>, i: nat, width: nat)
    requires i < |lines| && Width(wide, lines[i]) > width
    ensures !AllFit(wide, lines, width)
  {}

  /** An indent that is too wide, or leaves one column, goes over as soon as something is broken behind it. */
  lemma TightGoesOver(wide: Wide, c: char, n: nat, prefix: string, cont: string, width: nat)
    requires wide(c) && width >= 1 && n > 0 && !Leaves(wide, prefix, width)
    ensures !AllFit(wide, Broken(wide, Run(c, n), prefix, cont, width), width)
  {
    hide Width, Broken, AllFit;
    var k := BrokenRun(wide, c, n, prefix, cont, width);
    OverAt(wide, Broken(wide, Run(c, n), prefix, cont, width), 0, width);
  }

  /** A run too long for its first line goes over where one of the indents is no good, or the limit is 1. */
  lemma RunGoesOver(wide: Wide, c: char, lead: string, cont: string, width: nat)
    requires wide(c) && width >= 1
    requires width < 2 || !Leaves(wide, lead, width) || !Leaves(wide, cont, width)
    ensures !AllFit(wide, Broken(wide, Run(c, width + 1), lead, cont, width), width)
  {
    hide Width, Broken;
    var n := width + 1;
    if !Leaves(wide, lead, width) {
      TightGoesOver(wide, c, n, lead, cont, width);
    } else {
      var k := BrokenRun(wide, c, n, lead, cont, width);
      var lines, more := Broken(wide, Run(c, n), lead, cont, width), Broken(wide, Run(c, n - k), cont, cont, width);
      var at := |lines| - |more|;
      if width < 2 {
        OverAt(wide, lines, at - 1, width);
      } else {
        TightGoesOver(wide, c, n - k, cont, cont, width);
        var i :| 0 <= i < |more| && Width(wide, more[i]) > width;
        assert lines[at + i] == more[i];
        OverAt(wide, lines, at + i, width);
      }
    }
  }

  /** No text behind an indent of n blanks goes over the limit. */
  ghost predicate AlwaysFits(wide: Wide, n: nat, width: nat, cont: string) {
    forall text :: Lead(text) == Spaces(n) ==> AllFit(wide, Wrapped(wide, text, width, cont), width)
  }

  /**
   Where some character is wide, every text behind an indent stays within the limit exactly when the limit
   is two or more and each of the two indents leaves no column or at least two.
   */
  lemma WrappingFitsExactly(wide: Wide, c: char, n: nat, width: nat, cont: string)
    requires wide(c) && !wide(' ') && !IsSpace(c) && width >= 1
    ensures AlwaysFits(wide, n, width, cont) <==>
      width >= 2 && Leaves(wide, Spaces(n), width) && Leaves(wide, cont, width)
  {
    hide Wrapped, Leaves, Broken, Lead, IsSpace, AllFit, Width;
    if width >= 2 && Leaves(wide, Spaces(n), width) && Leaves(wide, cont, width) {
      forall text | Lead(text) == Spaces(n) ensures AllFit(wide, Wrapped(wide, text, width, cont), width) {
        WrappingFits(wide, text, width, cont);
      }
    } else {
      var word := Run(c, width + 1);
      RunWidth(wide, c, width + 1);
      WidthAppend(wide, Spaces(n), word);
      OneWordWrapped(wide, n, word, width, cont);
      RunGoesOver(wide, c, Spaces(n), cont, width);
      assert Lead(Spaces(n) + word) == Spaces(n);
    }
  }

  /** One column is too few: a wide character behind an indent that leaves one goes over every limit. */
  lemma OneColumnIsTooFew(wide: Wide, c: char, width: nat, cont: string)
    requires wide(c) && !wide(' ') && !IsSpace(c) && width >= 1
    ensures Width(wide, Lead(Spaces(width - 1) + [c])) == width - 1
    ensures !AllFit(wide, Wrapped(wide, Spaces(width - 1) + [c], width, cont), width)
  {
    hide Wrapped, Broken, Lead, IsSpace, AllFit, Width;
    var lead := Spaces(width - 1);
    WidthOfSpaces(wide, width - 1);
    WidthOne(wide, c);
    WidthAppend(wide, lead, [c]);
    OneWordWrapped(wide, width - 1, [c], width, cont);
    assert Run(c, 1) == [c];
    TightGoesOver(wide, c, 1, lead, cont, width);
  }

  /** An indent wider than the limit stands on a line of its own, whatever the characters of the word. */
  lemma TooWideIndent(wide: Wide, n: nat, word: string, width: nat, cont: string)
    requires width >= 1 && |word| > 1 && (forall i :: 0 <= i < |word| ==> !IsSpace(word[i]))
    requires Width(wide, Spaces(n)) < width < Width(wide, Spaces(n) + word) && Width(wide, cont) > width
    ensures cont in Wrapped(wide, Spaces(n) + word, width, cont)
  {
    hide Width, IsSpace;
    OneWordWrapped(wide, n, word, width, cont);
    var budget := width - Width(wide, Spaces(n));
    var k := HeadLen(wide, word, budget);
    WidthAppend(wide, Spaces(n), word);
    FitLenAll(wide, word, budget);
    assert k < |word|;
    var more := Broken(wide, word[k..], cont, cont, width);
    assert more[0] == cont;
    var lines := Broken(wide, word, Spaces(n), cont, width);
    assert lines == [] + [Spaces(n) + word[..k]] + more;
    assert lines[1] == cont;
  }

  /** The same on one input: four blanks in front of the rest of a narrow word, on lines of three columns. */
  lemma FourBlanksOfThree()
    ensures "    " in Wrapped(_ => false, " abcd", 3, "    ") && Width(_ => false, "    ") == 4
  {
    hide Wrapped;
    var narrow: Wide := _ => false;
    WidthOfSpaces(narrow, 1);
    WidthOfSpaces(narrow, 4);
    assert Spaces(1) == " " && Spaces(4) == "    " && Spaces(1) + "abcd" == " abcd";
    assert Width(narrow, " abcd") == 5 by { NarrowWidth(narrow, " abcd"); }
    TooWideIndent(narrow, 1, "abcd", 3, "    ");
  }

  lemma {:induction false} NarrowWidth(wide: Wide, s: string)
    requires forall c :: !wide(c)
    ensures Width(wide, s) == |s|
  {
    if |s| > 0 { NarrowWidth(wide, s[..|s| - 1]); }
  }
}
