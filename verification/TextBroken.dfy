/**
 Words too long for a line in omg_cli/agent_policy_ux.py: they are cut into pieces that fill the lines they
 get, and begin and end with lines of their own.  And what truncating and padding give, in every case.
 */
module TextBroken {
  import opened Text
  import opened TextLayout

  // ---------- truncation and padding ----------

  /** Every case of `truncate_display`, for an ellipsis of either width. */
  lemma TruncatedExactly(wide: Wide, s: string, width: int)
    ensures var t, dots := Truncated(wide, s, width), if wide('…') then 2 else 1;
      && (width <= 0 ==> t == "")
      && (width > 0 && Width(wide, s) <= width ==> t == s)
      && (0 < width <= dots && Width(wide, s) > width ==> t == "…")
      && (width > dots && Width(wide, s) > width ==>
            exists k, n :: 0 <= k && n == k + 1 <= |s| && t == s[..k] + "…"
              && Width(wide, s[..k]) <= width - dots && Width(wide, s[..n]) > width - dots)
  {
    var dots := if wide('…') then 2 else 1;
    WidthOne(wide, '…');
    assert "…" == ['…'] && ELLIPSIS[..1] == "…";
    if width > dots && Width(wide, s) > width {
      var k := FitLen(wide, s, width - dots);
      FitLenIsLongest(wide, s, width - dots);
      FitLenAll(wide, s, width - dots);
      var n := k + 1;
      assert Truncated(wide, s, width) == s[..k] + "…" && Width(wide, s[..n]) > width - dots;
    }
  }

  /** Padding puts spaces behind the truncated text, and nothing else. */
  lemma PaddedExactly(wide: Wide, s: string, width: int)
    ensures var t, p := Truncated(wide, s, width), Padded(wide, s, width);
      |t| <= |p| && p[..|t|] == t && forall i :: |t| <= i < |p| ==> p[i] == ' '
  {}

  // ---------- pieces ----------

  /** Each piece fits its room or is one character, and could not have taken the first character of the next. */
  predicate Snug(wide: Wide, pieces: seq<string>, first: nat, later: nat)
    decreases |pieces|
  {
    |pieces| > 0 ==>
      && |pieces[0]| > 0 && (Width(wide, pieces[0]) <= first || |pieces[0]| == 1)
      && (|pieces| > 1 ==> |pieces[1]| > 0 && Width(wide, pieces[0] + [pieces[1][0]]) > first)
      && Snug(wide, pieces[1..], later, later)
  }

  lemma HeadExactly(wide: Wide, s: string, width: nat)
    requires width > 0 && |s| > 0
    ensures var k := HeadLen(wide, s, width);
      && 0 < k <= |s| && (Width(wide, s[..k]) <= width || k == 1)
      && (k < |s| ==> Width(wide, s[..k] + [s[k]]) > width)
  {
    var k := HeadLen(wide, s, width);
    FitLenIsLongest(wide, s, width);
    if k < |s| {
      assert s[..k] + [s[k]] == s[..k + 1];
      if FitLen(wide, s, width) == 0 {
        assert s[..0 + 1] == s[..1];
        WidthAppend(wide, s[..1], [s[1]]);
      }
    }
  }

  lemma SnugCons(wide: Wide, head: string, pieces: seq<string>, first: nat, later: nat)
    requires |head| > 0 && (Width(wide, head) <= first || |head| == 1) && Snug(wide, pieces, later, later)
    requires |pieces| > 0 ==> |pieces[0]| > 0 && Width(wide, head + [pieces[0][0]]) > first
    ensures Snug(wide, [head] + pieces, first, later)
  {
    hide Width;
    assert ([head] + pieces)[1..] == pieces;
  }

  /** `_wrap_unbroken` cuts a text into such pieces. */
  lemma {:induction false} PiecesExactly(wide: Wide, s: string, width: nat)
    requires width > 0
    ensures Concat(Pieces(wide, s, width)) == s && Snug(wide, Pieces(wide, s, width), width, width)
    decreases |s|
  {
    hide Width, HeadLen, Snug;
    if |s| == 0 {
      NothingSnug(wide, width);
    } else {
      var k := HeadLen(wide, s, width);
      var rest := Pieces(wide, s[k..], width);
      HeadExactly(wide, s, width);
      PiecesExactly(wide, s[k..], width);
      assert ([s[..k]] + rest)[1..] == rest && s[..k] + s[k..] == s;
      FirstPiece(wide, s[k..], width);
      SnugCons(wide, s[..k], rest, width, width);
    }
  }

  lemma FirstPiece(wide: Wide, s: string, width: nat)
    requires width > 0
    ensures var p := Pieces(wide, s, width); |p| > 0 ==> |s| > 0 && |p[0]| > 0 && p[0][0] == s[0]
  {}

  lemma NothingSnug(wide: Wide, width: nat)
    ensures Snug(wide, [], width, width)
  {}

  /** There is one way only to cut a text so. */
  lemma {:induction false} OneCut(wide: Wide, a: seq<string>, b: seq<string>, first: nat, later: nat)
    requires Concat(a) == Concat(b) && Snug(wide, a, first, later) && Snug(wide, b, first, later)
    ensures a == b
    decreases |a|
  {
    hide Width;
    if |a| > 0 && |b| > 0 {
      Shorter(wide, a, b, first, later);
      Shorter(wide, b, a, first, later);
      assert a[0] == Concat(a)[..|a[0]|] && b[0] == Concat(b)[..|b[0]|];
      assert Concat(a[1..]) == Concat(a)[|a[0]|..] && Concat(b[1..]) == Concat(b)[|b[0]|..];
      OneCut(wide, a[1..], b[1..], later, later);
      assert a == [a[0]] + a[1..] && b == [b[0]] + b[1..];
    }
  }

  /** A first piece cannot be shorter than another. */
  lemma Shorter(wide: Wide, a: seq<string>, b: seq<string>, first: nat, later: nat)
    requires |a| > 0 && |b| > 0 && Concat(a) == Concat(b) && Snug(wide, a, first, later) && Snug(wide, b, first, later)
    ensures |a[0]| >= |b[0]|
  {
    hide Width, Snug, Concat;
    Unfolded(wide, a, first, later);
    Unfolded(wide, b, first, later);
    var n, c, t := |a[0]|, Concat(a), b[0];
    if n < |t| {
      assert t == c[..|t|] && a[0] == c[..n];
      assert c[n] == a[1][0];
      assert t == (a[0] + [a[1][0]]) + t[n + 1..];
      WidthAppend(wide, a[0] + [a[1][0]], t[n + 1..]);
    }
  }

  lemma Unfolded(wide: Wide, a: seq<string>, first: nat, later: nat)
    requires |a| > 0 && Snug(wide, a, first, later)
    ensures |a[0]| > 0 && (Width(wide, a[0]) <= first || |a[0]| == 1)
    ensures |a[0]| <= |Concat(a)| && Concat(a)[..|a[0]|] == a[0]
    ensures |a| == 1 ==> Concat(a) == a[0]
    ensures |a| > 1 ==>
      |a[1]| > 0 && Width(wide, a[0] + [a[1][0]]) > first && |a[0]| < |Concat(a)| && Concat(a)[|a[0]|] == a[1][0]
  {
    hide Width;
    if |a| > 1 { assert a[1..][0] == a[1]; }
  }

  /** Without a column there is one empty line; a text without words is cut as it is. */
  lemma BlankWrapped(wide: Wide, text: string, width: int, cont: string)
    ensures width < 1 ==> Wrapped(wide, text, width, cont) == [""]
    ensures width >= 1 && Words(text[IndentOf(text)..]) == [] ==>
      var lines := Wrapped(wide, text, width, cont);
      if Width(wide, text) <= width then lines == [text] else Concat(lines) == text && Snug(wide, lines, width, width)
  {
    hide FillAll, Width, Pieces;
    if width >= 1 { PiecesExactly(wide, text, width); }
  }

  // ---------- a word that is cut ----------

  /** The columns left behind an indent: one that leaves none gets a line of its own. */
  function Room(wide: Wide, prefix: string, cont: string, width: nat): nat {
    if Width(wide, prefix) < width then width - Width(wide, prefix)
    else if Width(wide, cont) < width then width - Width(wide, cont) else width
  }

  /** The lines of the pieces: the first behind the prefix, the others behind the indent of the later lines. */
  function Laid(wide: Wide, pieces: seq<string>, prefix: string, cont: string, width: nat): seq<string>
    decreases |pieces|
  {
    if |pieces| == 0 then []
    else
      (if Width(wide, prefix) < width then [prefix + pieces[0]]
       else if Width(wide, cont) < width then [prefix, cont + pieces[0]] else [prefix, pieces[0]])
      + Laid(wide, pieces[1..], cont, cont, width)
  }

  /** A word that is cut: its pieces in order, each filling the room it has. */
  lemma {:induction false} BrokenExactly(wide: Wide, word: string, prefix: string, cont: string, width: nat)
    returns (pieces: seq<string>)
    requires width > 0
    ensures Concat(pieces) == word && (|pieces| > 0 ==> |word| > 0 && |pieces[0]| > 0 && pieces[0][0] == word[0])
    ensures Snug(wide, pieces, Room(wide, prefix, cont, width), Room(wide, cont, cont, width))
    ensures Broken(wide, word, prefix, cont, width) == Laid(wide, pieces, prefix, cont, width)
    decreases |word|
  {
    hide Width, HeadLen, Snug, Broken, Laid, Room;
    if |word| == 0 {
      pieces := [];
      NoneSnug(wide, Room(wide, prefix, cont, width), Room(wide, cont, cont, width));
      NothingBroken(wide, prefix, cont, width);
    } else {
      var room := Room(wide, prefix, cont, width);
      assert room > 0 by { SomeRoom(wide, prefix, cont, width); }
      var k := HeadLen(wide, word, room);
      HeadExactly(wide, word, room);
      var rest := BrokenExactly(wide, word[k..], cont, cont, width);
      pieces := [word[..k]] + rest;
      assert pieces[1..] == rest && word[..k] + word[k..] == word;
      SnugCons(wide, word[..k], rest, room, Room(wide, cont, cont, width));
      FirstLaid(wide, word, k, rest, prefix, cont, width);
    }
  }

  lemma SomeRoom(wide: Wide, prefix: string, cont: string, width: nat)
    requires width > 0
    ensures Room(wide, prefix, cont, width) > 0
  {}

  lemma NothingBroken(wide: Wide, prefix: string, cont: string, width: nat)
    requires width > 0
    ensures Broken(wide, "", prefix, cont, width) == Laid(wide, [], prefix, cont, width)
  {}

  lemma FirstLaid(wide: Wide, word: string, k: nat, rest: seq<string>, prefix: string, cont: string, width: nat)
    requires width > 0 && |word| > 0 && k == HeadLen(wide, word, Room(wide, prefix, cont, width))
    requires Broken(wide, word[k..], cont, cont, width) == Laid(wide, rest, cont, cont, width)
    ensures Broken(wide, word, prefix, cont, width) == Laid(wide, [word[..k]] + rest, prefix, cont, width)
  {
    hide Width, HeadLen;
    NothingIsNarrow(wide);
    assert ([word[..k]] + rest)[1..] == rest && "" + word[..k] == word[..k];
    assert width - Width(wide, NextPrefix(wide, prefix, cont, width)) == Room(wide, prefix, cont, width);
  }

  lemma NoneSnug(wide: Wide, first: nat, later: nat)
    ensures Snug(wide, [], first, later)
  {}

  lemma NothingIsNarrow(wide: Wide)
    ensures Width(wide, "") == 0
  {}

  // ---------- the lines before it and behind it ----------

  function Finished(st: Filling, cont: string): seq<string> {
    if |st.parts| > 0 then Flushed(st, cont).lines else st.lines
  }

  /** The lines of some words, the first behind `lead` and the others behind `cont`. */
  function Lines(wide: Wide, words: seq<string>, lead: string, cont: string, width: nat): seq<string>
    requires width > 0
  {
    Finished(FillAll(wide, Filling([], lead, []), words, cont, width), cont)
  }

  /** Wrapping is laying out the words of the text. */
  lemma WrappedIsLines(wide: Wide, text: string, width: nat, cont: string)
    requires width > 0 && Words(text[IndentOf(text)..]) != []
    ensures Wrapped(wide, text, width, cont)
         == Lines(wide, Words(text[IndentOf(text)..]), text[..IndentOf(text)], cont, width)
  {
    hide FillAll;
  }

  lemma {:induction false} FillAllAppend(wide: Wide, st: Filling, x: seq<string>, y: seq<string>, cont: string,
                                         width: nat)
    requires width > 0
    ensures FillAll(wide, st, x + y, cont, width) == FillAll(wide, FillAll(wide, st, x, cont, width), y, cont, width)
    decreases |y|
  {
    hide Fill;
    if |y| == 0 {
      assert x + y == x;
    } else {
      assert (x + y)[..|x| + |y| - 1] == x + y[..|y| - 1];
      FillAllAppend(wide, st, x, y[..|y| - 1], cont, width);
    }
  }

  /** Lines that are done play no part in the rest. */
  function Above(lines: seq<string>, st: Filling): Filling { st.(lines := lines + st.lines) }

  lemma FillAbove(wide: Wide, lines: seq<string>, st: Filling, token: string, cont: string, width: nat)
    requires width > 0
    ensures Fill(wide, Above(lines, st), token, cont, width) == Above(lines, Fill(wide, st, token, cont, width))
  {
    hide Width, Broken;
    var next := if |st.parts| > 0 then Flushed(st, cont) else st;
    var far := if |st.parts| > 0 then Flushed(Above(lines, st), cont) else Above(lines, st);
    assert far == Above(lines, next);
    var more := Broken(wide, token, next.prefix, cont, width);
    assert lines + next.lines + more == lines + (next.lines + more);
  }

  lemma {:induction false} FillAllAbove(wide: Wide, lines: seq<string>, st: Filling, tokens: seq<string>, cont: string,
                                        width: nat)
    requires width > 0
    ensures FillAll(wide, Above(lines, st), tokens, cont, width)
         == Above(lines, FillAll(wide, st, tokens, cont, width))
    decreases |tokens|
  {
    hide Fill, Above;
    if |tokens| > 0 {
      FillAllAbove(wide, lines, st, tokens[..|tokens| - 1], cont, width);
      FillAbove(wide, lines, FillAll(wide, st, tokens[..|tokens| - 1], cont, width), tokens[|tokens| - 1], cont, width);
    }
  }

  /** Where the words end: an unfinished line begins with one of the two indents, and a new one with the later. */
  predicate Stands(st: Filling, lead: string, cont: string, begun: bool) {
    && st.prefix in {lead, cont} && (!begun ==> st.prefix == lead && |st.parts| == 0)
    && (begun && |st.parts| == 0 ==> st.prefix == cont)
  }

  lemma {:induction false} WordsStand(wide: Wide, tokens: seq<string>, lead: string, cont: string, width: nat)
    requires width > 0
    ensures Stands(FillAll(wide, Filling([], lead, []), tokens, cont, width), lead, cont, |tokens| > 0)
    decreases |tokens|
  {
    hide Width, Broken;
    if |tokens| > 0 { WordsStand(wide, tokens[..|tokens| - 1], lead, cont, width); }
  }

  lemma {:induction false} JoinedIsWider(wide: Wide, prefix: string, parts: seq<string>, token: string)
    ensures Width(wide, prefix + Join(parts + [token], ' ')) >= Width(wide, prefix + token)
  {
    hide Width;
    WidthAppend(wide, prefix, Join(parts + [token], ' '));
    WidthAppend(wide, prefix, token);
    LastIsNarrower(wide, parts, token);
  }

  lemma {:induction false} LastIsNarrower(wide: Wide, parts: seq<string>, token: string)
    ensures Width(wide, Join(parts + [token], ' ')) >= Width(wide, token)
  {
    hide Width;
    if |parts| == 0 {
      assert parts + [token] == [token];
    } else {
      var rest := Join(parts[1..] + [token], ' ');
      assert (parts + [token])[1..] == parts[1..] + [token];
      LastIsNarrower(wide, parts[1..], token);
      WidthAppend(wide, parts[0] + [' '], rest);
    }
  }

  /**
   A word that is too long for a line of its own stands alone: the words before it keep their lines, it is
   cut over lines of its own, and the words behind it begin a new line.
   */
  lemma LongWord(wide: Wide, a: seq<string>, word: string, b: seq<string>, lead: string, cont: string, width: nat)
    requires width > 0 && Width(wide, lead + word) > width && (a != [] ==> Width(wide, cont + word) > width)
    ensures Lines(wide, a + [word] + b, lead, cont, width)
         == Lines(wide, a, lead, cont, width) + Broken(wide, word, if a == [] then lead else cont, cont, width)
            + Lines(wide, b, cont, cont, width)
  {
    hide Width, Broken, FillAll, Fill, Stands;
    var start := Filling([], lead, []);
    var before := FillAll(wide, start, a, cont, width);
    FillAllAppend(wide, start, a + [word], b, cont, width);
    FillAllAppend(wide, start, a, [word], cont, width);
    OneWord(wide, before, word, cont, width);
    WordsStand(wide, a, lead, cont, width);
    CutsWord(wide, before, word, lead, cont, width, a != []);
    var done := Finished(before, cont) + Broken(wide, word, if a == [] then lead else cont, cont, width);
    assert Above(done, Filling([], cont, [])) == Filling(done, cont, []);
    FillAllAbove(wide, done, Filling([], cont, []), b, cont, width);
    var behind := FillAll(wide, Filling([], cont, []), b, cont, width);
    FinishedAbove(done, behind, cont);
  }

  lemma OneWord(wide: Wide, st: Filling, word: string, cont: string, width: nat)
    requires width > 0
    ensures FillAll(wide, st, [word], cont, width) == Fill(wide, st, word, cont, width)
  {
    hide Fill;
    assert [word][..0] == [];
  }

  lemma CutsWord(wide: Wide, st: Filling, word: string, lead: string, cont: string, width: nat, begun: bool)
    requires width > 0 && Stands(st, lead, cont, begun)
    requires Width(wide, lead + word) > width && (begun ==> Width(wide, cont + word) > width)
    ensures Fill(wide, st, word, cont, width)
         == Filling(Finished(st, cont) + Broken(wide, word, if begun then cont else lead, cont, width), cont, [])
  {
    hide Width, Broken;
    JoinedIsWider(wide, st.prefix, st.parts, word);
  }

  lemma FinishedAbove(lines: seq<string>, st: Filling, cont: string)
    ensures Finished(Above(lines, st), cont) == lines + Finished(st, cont)
  {}
}
