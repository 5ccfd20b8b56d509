/** Where every word fits on a line, `wrap_display` breaks none and starts a line only where it must. */
module TextGreedy {
  import opened Text
  import opened TextLayout

  function Flatten(groups: seq<seq<string>>): seq<string> {
    if |groups| == 0 then [] else Flatten(groups[..|groups| - 1]) + groups[|groups| - 1]
  }

  function IndentFor(i: nat, lead: string, cont: string): string { if i == 0 then lead else cont }

  predicate WordsFit(wide: Wide, tokens: seq<string>, lead: string, cont: string, width: nat) {
    forall i :: 0 <= i < |tokens| ==> Width(wide, lead + tokens[i]) <= width && Width(wide, cont + tokens[i]) <= width
  }

  /** Line i is its indent and the words of group i; each next group begins with a word that did not fit behind it. */
  predicate Grouped(wide: Wide, lines: seq<string>, groups: seq<seq<string>>, lead: string, cont: string, width: nat) {
    && |lines| == |groups|
    && (forall i :: 0 <= i < |groups| ==>
        |groups[i]| > 0 && lines[i] == IndentFor(i, lead, cont) + Join(groups[i], ' '))
    && (forall i :: 0 < i < |groups| ==> MustBreak(wide, IndentFor(i - 1, lead, cont), groups[i - 1], groups[i], width))
  }

  /** The first word of the next group did not fit behind this one. */
  predicate MustBreak(wide: Wide, indent: string, group: seq<string>, next: seq<string>, width: nat)
  {
    |next| > 0 && Width(wide, indent + Join(group + [next[0]], ' ')) > width
  }

  /** The same with the words of the line being filled as the last group. */
  predicate Held(wide: Wide, st: Filling, groups: seq<seq<string>>, lead: string, cont: string, width: nat) {
    && |groups| == |st.lines| + 1 && st.parts == groups[|st.lines|] && st.prefix == IndentFor(|st.lines|, lead, cont)
    && Grouped(wide, st.lines + [Current(st)], groups, lead, cont, width)
  }

  lemma FlattenPush(groups: seq<seq<string>>, last: seq<string>)
    ensures Flatten(groups + [last]) == Flatten(groups) + last
  {
    assert (groups + [last])[..|groups|] == groups;
  }

  /** One word more on the line being filled. */
  lemma HoldSame(wide: Wide, st: Filling, groups: seq<seq<string>>, token: string, lead: string, cont: string,
                 width: nat)
    requires Held(wide, st, groups, lead, cont, width)
    ensures Held(wide, st.(parts := st.parts + [token]), groups[..|st.lines|] + [st.parts + [token]], lead, cont, width)
  {
    hide Width, Join;
    var n := |st.lines|;
    var t, more := st.(parts := st.parts + [token]), groups[..n] + [st.parts + [token]];
    var before, after := st.lines + [Current(st)], t.lines + [Current(t)];
    forall i | 0 <= i < |more| ensures |more[i]| > 0 && after[i] == IndentFor(i, lead, cont) + Join(more[i], ' ') {
      assert before[i] == IndentFor(i, lead, cont) + Join(groups[i], ' ');
      if i < n { assert more[i] == groups[i]; }
    }
    forall i | 0 < i < |more| ensures MustBreak(wide, IndentFor(i - 1, lead, cont), more[i - 1], more[i], width) {
      assert MustBreak(wide, IndentFor(i - 1, lead, cont), groups[i - 1], groups[i], width);
      assert more[i - 1] == groups[i - 1] && more[i][0] == groups[i][0];
    }
  }

  /** A new line, because the word did not fit on the old one. */
  lemma HoldNext(wide: Wide, st: Filling, groups: seq<seq<string>>, token: string, lead: string, cont: string,
                 width: nat)
    requires Held(wide, st, groups, lead, cont, width)
    requires Width(wide, st.prefix + Join(st.parts + [token], ' ')) > width
    ensures Held(wide, Filling(st.lines + [Current(st)], cont, [token]), groups + [[token]], lead, cont, width)
  {
    hide Width, Join;
    var t, more := Filling(st.lines + [Current(st)], cont, [token]), groups + [[token]];
    var after := t.lines + [Current(t)];
    forall i | 0 <= i < |more| ensures |more[i]| > 0 && after[i] == IndentFor(i, lead, cont) + Join(more[i], ' ') {
      if i < |groups| { assert t.lines[i] == IndentFor(i, lead, cont) + Join(groups[i], ' '); }
    }
    forall i | 0 < i < |more| ensures MustBreak(wide, IndentFor(i - 1, lead, cont), more[i - 1], more[i], width) {
      if i < |groups| { assert MustBreak(wide, IndentFor(i - 1, lead, cont), groups[i - 1], groups[i], width); }
    }
  }

  lemma HoldOne(wide: Wide, st: Filling, groups: seq<seq<string>>, token: string, lead: string, cont: string,
                width: nat)
    returns (more: seq<seq<string>>)
    requires Held(wide, st, groups, lead, cont, width) && WordsFit(wide, [token], lead, cont, width) && width > 0
    ensures Held(wide, Fill(wide, st, token, cont, width), more, lead, cont, width)
    ensures Flatten(more) == Flatten(groups) + [token]
  {
    hide Width, Flatten, Grouped;
    var init := groups[..|st.lines|];
    assert groups == init + [st.parts];
    FlattenPush(init, st.parts);
    if Width(wide, st.prefix + Join(st.parts + [token], ' ')) <= width {
      more := init + [st.parts + [token]];
      FlattenPush(init, st.parts + [token]);
      HoldSame(wide, st, groups, token, lead, cont, width);
    } else {
      more := groups + [[token]];
      FlattenPush(groups, [token]);
      SomeParts(wide, st, groups, lead, cont, width);
      assert Width(wide, cont + [token][0]) <= width;
      HoldNext(wide, st, groups, token, lead, cont, width);
    }
  }

  lemma {:induction false} HoldAll(wide: Wide, tokens: seq<string>, lead: string, cont: string, width: nat)
    returns (groups: seq<seq<string>>)
    requires |tokens| > 0 && WordsFit(wide, tokens, lead, cont, width) && width > 0
    ensures Held(wide, FillAll(wide, Filling([], lead, []), tokens, cont, width), groups, lead, cont, width)
    ensures Flatten(groups) == tokens
    decreases |tokens|
  {
    hide Width, Fill, Held;
    var start := Filling([], lead, []);
    if |tokens| == 1 {
      FirstHeld(wide, tokens[0], lead, cont, width);
      groups := [tokens];
      assert tokens == [tokens[0]] && tokens[..0] == [];
      assert Flatten(groups) == [] + tokens by { FlattenPush([], tokens); assert [] + [tokens] == [tokens]; }
    } else {
      var init, last := tokens[..|tokens| - 1], tokens[|tokens| - 1];
      groups := HoldAll(wide, init, lead, cont, width);
      assert WordsFit(wide, [last], lead, cont, width);
      groups := HoldOne(wide, FillAll(wide, start, init, cont, width), groups, last, lead, cont, width);
      assert init + [last] == tokens;
    }
  }

  lemma FirstHeld(wide: Wide, token: string, lead: string, cont: string, width: nat)
    requires width > 0 && Width(wide, lead + token) <= width
    ensures Held(wide, Fill(wide, Filling([], lead, []), token, cont, width), [[token]], lead, cont, width)
  {
    hide Width, Join, Broken, Flushed;
    JoinOne(token);
    var st := Filling([], lead, []);
    assert st.parts + [token] == [token];
    var t := Fill(wide, st, token, cont, width);
    assert t == st.(parts := [token]);
    assert t.lines + [Current(t)] == [lead + Join([token], ' ')];
  }

  lemma JoinOne(token: string)
    ensures Join([token], ' ') == token
  {}

  /**
   If every word fits behind both indents, the lines are the words of the text in order, none of them
   broken, and no line could have taken the first word of the next.
   */
  lemma WrappingIsGreedy(wide: Wide, text: string, width: nat, cont: string) returns (groups: seq<seq<string>>)
    requires width >= 1 && Words(text[IndentOf(text)..]) != []
    requires WordsFit(wide, Words(text[IndentOf(text)..]), Lead(text), cont, width)
    ensures Grouped(wide, Wrapped(wide, text, width, cont), groups, Lead(text), cont, width)
    ensures Flatten(groups) == Words(text[IndentOf(text)..])
  {
    hide Width, FillAll, Words, Flatten, Grouped, WordsFit;
    groups := HoldAll(wide, Words(text[IndentOf(text)..]), Lead(text), cont, width);
    var st := FillAll(wide, Filling([], Lead(text), []), Words(text[IndentOf(text)..]), cont, width);
    assert |st.parts| > 0 by { SomeParts(wide, st, groups, Lead(text), cont, width); }
  }

  lemma SomeParts(wide: Wide, st: Filling, groups: seq<seq<string>>, lead: string, cont: string, width: nat)
    requires Held(wide, st, groups, lead, cont, width)
    ensures |st.parts| > 0
  {}
}
