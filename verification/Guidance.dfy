/** The managed block of omg_cli/guidance.py: finding it, splicing it in and taking it out. */
module Guidance {
  import opened Options
  import opened Text

  const OMG_START := "<!-- OMG:START -->"
  const OMG_END := "<!-- OMG:END -->"

  // ---------- occurrences ----------

  predicate Occurs(text: string, m: string, i: int) {
    0 <= i <= |text| - |m| && text[i..i + |m|] == m
  }

  /** `text.index(m)`, or |text| for none. */
  function Index(text: string, m: string): (i: nat)
    ensures i <= |text|
    ensures i < |text| ==> Occurs(text, m, i)
  {
    if |text| == 0 then 0 else if m <= text then 0 else 1 + Index(text[1..], m)
  }

  /** `text.count(m)` */
  function Count(text: string, m: string): nat
    requires |m| > 0
    decreases |text|
  {
    var i := Index(text, m);
    if i == |text| then 0 else 1 + Count(text[i + |m|..], m)
  }

  ghost predicate Absent(text: string, m: string) { forall i :: !Occurs(text, m, i) }

  ghost predicate OnlyAt(text: string, m: string, k: int) {
    Occurs(text, m, k) && forall i :: Occurs(text, m, i) ==> i == k
  }

  lemma {:induction false} IndexIsFirst(text: string, m: string, i: int)
    requires Occurs(text, m, i) && |m| > 0
    ensures Index(text, m) <= i && Index(text, m) < |text|
  {
    if !(m <= text) {
      assert i != 0;
      assert text[1..][i - 1..i - 1 + |m|] == text[i..i + |m|];
      IndexIsFirst(text[1..], m, i - 1);
    }
  }

  lemma CountNone(text: string, m: string)
    requires |m| > 0
    ensures Count(text, m) == 0 <==> Absent(text, m)
  {
    if Count(text, m) == 0 {
      forall i ensures !Occurs(text, m, i) {
        if Occurs(text, m, i) { IndexIsFirst(text, m, i); }
      }
    }
  }

  /** Where occurrences cannot overlap, every other one lies behind the first. */
  lemma BehindFirst(text: string, m: string, i: int)
    requires |m| > 0 && m[0] !in m[1..] && Occurs(text, m, i) && i != Index(text, m)
    ensures Index(text, m) + |m| <= i
    ensures Occurs(text[Index(text, m) + |m|..], m, i - Index(text, m) - |m|)
  {
    hide Index;
    IndexIsFirst(text, m, i);
    var k := Index(text, m);
    forall q | k < q < k + |m| ensures text[q] in m[1..] {
      assert text[q] == text[k..k + |m|][q - k] == m[1..][q - k - 1];
    }
    assert text[i] == text[i..i + |m|][0] == m[0];
    var rest := text[k + |m|..];
    assert rest[i - k - |m|..i - k] == text[i..i + |m|];
  }

  lemma OccursInRest(text: string, m: string, k: nat, i: int)
    requires k <= |text| && Occurs(text[k..], m, i)
    ensures Occurs(text, m, i + k)
  {
    assert text[k..][i..i + |m|] == text[i + k..i + k + |m|];
  }

  /** Then a count of one means a single place. */
  lemma CountOne(text: string, m: string)
    requires |m| > 0 && m[0] !in m[1..]
    ensures Count(text, m) == 1 ==> OnlyAt(text, m, Index(text, m)) && Absent(text[Index(text, m) + |m|..], m)
  {
    hide Index;
    if Count(text, m) == 1 {
      RestIsAbsent(text, m);
      forall i | Occurs(text, m, i) ensures i == Index(text, m) {
        if i != Index(text, m) { BehindFirst(text, m, i); }
      }
    }
  }

  lemma RestIsAbsent(text: string, m: string)
    requires |m| > 0 && Count(text, m) == 1
    ensures Index(text, m) < |text| && Absent(text[Index(text, m) + |m|..], m)
  {
    hide Index;
    CountNone(text[Index(text, m) + |m|..], m);
  }

  lemma OnlyIsIndex(text: string, m: string, k: int)
    requires |m| > 0 && OnlyAt(text, m, k)
    ensures Count(text, m) == 1 && Index(text, m) == k
  {
    IndexIsFirst(text, m, k);
    var rest := text[k + |m|..];
    forall i ensures !Occurs(rest, m, i) {
      if Occurs(rest, m, i) { OccursInRest(text, m, k + |m|, i); }
    }
    CountNone(rest, m);
  }

  lemma MarkersDoNotOverlap()
    ensures OMG_START[0] !in OMG_START[1..] && OMG_END[0] !in OMG_END[1..] && OMG_START[0] == OMG_END[0]
    ensures '\n' !in OMG_START && '\n' !in OMG_END && OMG_START[9] != OMG_END[9] && |OMG_START| == 18 && |OMG_END| == 16
  {}

  /** A marker without a newline does not reach across one. */
  lemma AcrossNewline(a: string, b: string, m: string, i: int)
    requires |m| > 0 && '\n' !in m
    ensures Occurs(a + "\n" + b, m, i) <==> Occurs(a, m, i) || Occurs(b, m, i - |a| - 1)
  {
    var t := a + "\n" + b;
    if Occurs(t, m, i) {
      assert t[|a|] == '\n';
      forall p | i <= p < i + |m| ensures t[p] in m {
        assert t[p] == t[i..i + |m|][p - i];
      }
      assert |a| < i || i + |m| <= |a|;
      if i + |m| <= |a| {
        assert t[i..i + |m|] == a[i..i + |m|];
      } else {
        assert t[i..i + |m|] == b[i - |a| - 1..i - |a| - 1 + |m|];
      }
    }
    if Occurs(a, m, i) { assert t[i..i + |m|] == a[i..i + |m|]; }
    if Occurs(b, m, i - |a| - 1) { assert t[i..i + |m|] == b[i - |a| - 1..i - |a| - 1 + |m|]; }
  }

  // ---------- the span ----------

  datatype Span = NoBlock | Corrupt | Block(start: nat, end: nat)

  /** `_extract_managed_block`; Corrupt where it raises. */
  function Extract(text: string): (span: Span)
    ensures span.Block? ==> span.start <= span.end <= |text|
  {
    var starts, ends := Count(text, OMG_START), Count(text, OMG_END);
    if starts == 0 && ends == 0 then NoBlock
    else if starts == 0 && ends > 0 then Corrupt
    else if starts > 1 then Corrupt
    else if ends > 1 then Corrupt
    else if ends == 0 then Corrupt
    else
      var s, e := Index(text, OMG_START), Index(text, OMG_END);
      if e < s then Corrupt else Block(s, e + |OMG_END|)
  }

  ghost predicate MarkerFree(text: string) { Absent(text, OMG_START) && Absent(text, OMG_END) }

  lemma OccursInPart(text: string, m: string, i: nat, j: nat, k: int)
    requires i <= j <= |text| && Occurs(text[i..j], m, k)
    ensures Occurs(text, m, i + k)
  {
    var part, a, b := text[i..j], text[i..j][k..k + |m|], text[i + k..i + k + |m|];
    forall p | 0 <= p < |m| ensures a[p] == b[p] {
      assert part[k + p] == text[i + k + p];
    }
    assert a == b;
  }

  lemma PartOfAbsent(text: string, m: string, i: nat, j: nat)
    requires i <= j <= |text| && Absent(text, m)
    ensures Absent(text[i..j], m)
  {
    forall k ensures !Occurs(text[i..j], m, k) {
      if Occurs(text[i..j], m, k) { OccursInPart(text, m, i, j, k); }
    }
  }

  lemma NoBlockIsMarkerFree(text: string)
    ensures Extract(text) == NoBlock <==> MarkerFree(text)
  {
    CountNone(text, OMG_START);
    CountNone(text, OMG_END);
  }

  /** The end marker does not begin inside the start marker. */
  lemma MarkersApart(text: string, s: nat, e: nat)
    requires Occurs(text, OMG_START, s) && Occurs(text, OMG_END, e) && s <= e
    ensures e >= s + |OMG_START|
  {
    MarkersDoNotOverlap();
    assert forall i :: 0 <= i < 18 ==> text[s + i] == text[s..s + 18][i] == OMG_START[i];
    assert forall j :: 0 <= j < 16 ==> text[e + j] == text[e..e + 16][j] == OMG_END[j];
    assert forall i :: 1 <= i < 18 ==> OMG_START[i] == OMG_START[1..][i - 1];
    assert text[e] == OMG_END[0] && text[e + 9] == OMG_END[9] && text[s + 9] == OMG_START[9];
  }

  /** What stands before and after a found block holds no marker. */
  lemma AroundIsMarkerFree(text: string)
    requires Extract(text).Block?
    ensures var span := Extract(text);
      && MarkerFree(text[..span.start]) && MarkerFree(text[span.end..])
  {
    hide Index, Count;
    MarkersDoNotOverlap();
    CountOne(text, OMG_START);
    CountOne(text, OMG_END);
    var s, e := Index(text, OMG_START), Index(text, OMG_END);
    assert Occurs(text, OMG_START, s) && Occurs(text, OMG_END, e);
    MarkersApart(text, s, e);
    FrontIsAbsent(text, OMG_START, s, s);
    FrontIsAbsent(text, OMG_END, e, s);
    var afterStart, afterEnd := text[s + |OMG_START|..], text[e + |OMG_END|..];
    var gap := e + |OMG_END| - s - |OMG_START|;
    PartOfAbsent(afterStart, OMG_START, gap, |afterStart|);
    assert afterStart[gap..|afterStart|] == afterEnd;
  }

  lemma FrontIsAbsent(text: string, m: string, k: int, n: nat)
    requires OnlyAt(text, m, k) && n <= k && n <= |text| && |m| > 0
    ensures Absent(text[..n], m)
  {
    forall i ensures !Occurs(text[..n], m, i) {
      if Occurs(text[..n], m, i) {
        assert text[..n][i..i + |m|] == text[i..i + |m|];
        assert Occurs(text, m, i);
      }
    }
  }

  /** A marker is counted once exactly where it stands at one place. */
  lemma CountedOnce(text: string, m: string)
    requires |m| > 0 && m[0] !in m[1..]
    ensures Count(text, m) == 1 <==> exists k :: OnlyAt(text, m, k)
  {
    hide Count, Index, OnlyAt;
    if Count(text, m) == 1 { CountOne(text, m); }
    if exists k :: OnlyAt(text, m, k) {
      var k :| OnlyAt(text, m, k);
      OnlyIsIndex(text, m, k);
    }
  }

  /**
   A block is found exactly where each marker stands at one place, the start in front; the text counts as
   corrupt exactly where it has a marker and no such block.
   */
  lemma ExtractExactly(text: string, s: nat, e: nat)
    ensures Extract(text) == Block(s, e) <==>
      OnlyAt(text, OMG_START, s) && OnlyAt(text, OMG_END, e - |OMG_END|) && s < e
    ensures Extract(text) == Corrupt <==>
      && !MarkerFree(text)
      && forall i: nat, j: nat :: !(OnlyAt(text, OMG_START, i) && OnlyAt(text, OMG_END, j) && i < j)
  {
    hide Count, Index, OnlyAt;
    MarkersDoNotOverlap();
    NoBlockIsMarkerFree(text);
    var a, b := Index(text, OMG_START), Index(text, OMG_END);
    if Count(text, OMG_START) == 1 { CountOne(text, OMG_START); }
    if Count(text, OMG_END) == 1 { CountOne(text, OMG_END); }
    forall i: nat, j: nat | OnlyAt(text, OMG_START, i) && OnlyAt(text, OMG_END, j)
      ensures Count(text, OMG_START) == 1 && Count(text, OMG_END) == 1 && i == a && j == b && i != j
    {
      OnlyIsIndex(text, OMG_START, i);
      OnlyIsIndex(text, OMG_END, j);
      NotBoth(text, i, j);
    }
    CountsApart(text);
    if OnlyAt(text, OMG_START, s) && OnlyAt(text, OMG_END, e - |OMG_END|) {
      NotNegative(text, OMG_END, e - |OMG_END|);
      var j: nat := e - |OMG_END|;
      assert OnlyAt(text, OMG_END, j);
      Behind(text, s, j);
    }
  }

  lemma NotNegative(text: string, m: string, k: int)
    requires OnlyAt(text, m, k)
    ensures k >= 0
  {}

  /** The start marker does not begin inside the end marker either. */
  lemma Behind(text: string, s: nat, e: nat)
    requires OnlyAt(text, OMG_START, s) && OnlyAt(text, OMG_END, e)
    ensures s < e + |OMG_END| ==> s <= e
  {
    MarkersDoNotOverlap();
    assert text[s] == text[s..s + 18][0] == OMG_START[0];
    var tail := OMG_END[1..];
    assert OMG_START[0] !in tail;
    forall i | e < i < e + 16 ensures text[i] != OMG_START[0] {
      assert text[i] == text[e..e + 16][i - e] == tail[i - e - 1];
    }
  }

  lemma NotBoth(text: string, i: nat, j: nat)
    requires OnlyAt(text, OMG_START, i) && OnlyAt(text, OMG_END, j)
    ensures i != j
  {
    MarkersDoNotOverlap();
    if i == j { MarkersApart(text, i, j); }
  }

  /** Without a counted pair the case is decided by the counts. */
  lemma CountsApart(text: string)
    ensures Extract(text).Block? ==> Count(text, OMG_START) == 1 && Count(text, OMG_END) == 1
    ensures Extract(text) != NoBlock && !Extract(text).Block? <==> Extract(text) == Corrupt
    ensures Count(text, OMG_START) == 1 && Count(text, OMG_END) == 1 && Index(text, OMG_START) <= Index(text, OMG_END)
      ==> Extract(text) == Block(Index(text, OMG_START), Index(text, OMG_END) + |OMG_END|)
    ensures Extract(text).Block? ==>
      && Index(text, OMG_START) <= Index(text, OMG_END)
      && Extract(text) == Block(Index(text, OMG_START), Index(text, OMG_END) + |OMG_END|)
  {
    hide Count, Index;
  }

  // ---------- newlines ----------

  function LStripNl(s: string): string { if |s| > 0 && s[0] == '\n' then LStripNl(s[1..]) else s }

  function RStripNl(s: string): string { if |s| > 0 && s[|s| - 1] == '\n' then RStripNl(s[..|s| - 1]) else s }

  /** `strip("\n")` */
  function StripNl(s: string): string { RStripNl(LStripNl(s)) }

  predicate Tight(s: string) { |s| > 0 ==> s[0] != '\n' && s[|s| - 1] != '\n' }

  lemma {:induction false} LStripNlFacts(s: string)
    ensures var r := LStripNl(s);
      && |r| <= |s| && r == s[|s| - |r|..] && (|r| > 0 ==> r[0] != '\n')
           && forall i :: 0 <= i < |s| - |r| ==> s[i] == '\n'
  {
    if |s| > 0 && s[0] == '\n' { LStripNlFacts(s[1..]); }
  }

  lemma {:induction false} RStripNlFacts(s: string)
    ensures var r := RStripNl(s);
      && |r| <= |s| && r == s[..|r|] && (|r| > 0 ==> r[|r| - 1] != '\n') && forall i :: |r| <= i < |s| ==> s[i] == '\n'
  {
    if |s| > 0 && s[|s| - 1] == '\n' {
      RStripNlFacts(s[..|s| - 1]);
    } else {
      assert s[..|s|] == s;
    }
  }

  /** A part of the text, with no newline at either end. */
  lemma StripNlFacts(s: string)
    ensures Tight(StripNl(s))
    ensures exists i, j :: 0 <= i <= j <= |s| && StripNl(s) == s[i..j]
  {
    LStripNlFacts(s);
    var l := LStripNl(s);
    RStripNlFacts(l);
    var r := StripNl(s);
    var i := |s| - |l|;
    assert s[i..i + |r|] == l[..|r|];
  }

  /** Newlines around a tight text are what is stripped. */
  lemma StripNlOf(a: string, s: string, b: string)
    requires Tight(s) && (forall i :: 0 <= i < |a| ==> a[i] == '\n') && (forall i :: 0 <= i < |b| ==> b[i] == '\n')
    requires |s| == 0 ==> |a| == 0
    ensures StripNl(a + s + b) == s
  {
    if |a| > 0 {
      assert (a + s + b)[1..] == a[1..] + s + b;
      StripNlOf(a[1..], s, b);
    } else {
      assert a + s + b == s + b;
      if |s| == 0 {
        assert s + b == b;
        OnlyNewlines(b);
      } else {
        RStripTail(s, b);
      }
    }
  }

  lemma {:induction false} OnlyNewlines(b: string)
    requires forall i :: 0 <= i < |b| ==> b[i] == '\n'
    ensures LStripNl(b) == ""
  {
    if |b| > 0 { OnlyNewlines(b[1..]); }
  }

  lemma {:induction false} RStripTail(s: string, b: string)
    requires |s| > 0 && s[|s| - 1] != '\n' && forall i :: 0 <= i < |b| ==> b[i] == '\n'
    ensures RStripNl(s + b) == s
    decreases |b|
  {
    if |b| > 0 {
      assert (s + b)[..|s + b| - 1] == s + b[..|b| - 1];
      RStripTail(s, b[..|b| - 1]);
    } else {
      assert s + b == s;
    }
  }

  // ---------- splicing ----------

  function Cleaned(parts: seq<string>): seq<string> {
    if |parts| == 0 then []
    else
      Cleaned(parts[..|parts| - 1])
      + (if StripNl(parts[|parts| - 1]) == "" then [] else [StripNl(parts[|parts| - 1])])
  }

  /** `_join_regions` */
  function JoinRegions(parts: seq<string>): string {
    if |Cleaned(parts)| == 0 then "\n" else Join(Cleaned(parts), '\n') + "\n"
  }

  /** Of regions of nothing but newlines one newline is left; each other one is a line of its own, without those. */
  lemma {:induction false} JoinExactly(parts: seq<string>, region: string)
    requires forall p, c :: p in parts && c in p ==> c == '\n'
    ensures JoinRegions(parts) == "\n"
    ensures StripNl(region) != "" ==> JoinRegions(parts + [region]) == StripNl(region) + "\n"
  {
    hide StripNl;
    NothingCleaned(parts);
    assert (parts + [region])[..|parts|] == parts;
  }

  lemma {:induction false} NothingCleaned(parts: seq<string>)
    requires forall p, c :: p in parts && c in p ==> c == '\n'
    ensures Cleaned(parts) == []
  {
    hide StripNl;
    if |parts| > 0 {
      NothingCleaned(parts[..|parts| - 1]);
      var last := parts[|parts| - 1];
      OnlyNewlinesGo(last);
    }
  }

  lemma {:induction false} OnlyNewlinesGo(s: string)
    requires forall c :: c in s ==> c == '\n'
    ensures StripNl(s) == "" && LStripNl(s) == ""
  {
    if |s| > 0 {
      assert s[0] in s && forall i :: 0 <= i < |s[1..]| ==> s[1..][i] == s[i + 1] && s[i + 1] in s;
      OnlyNewlinesGo(s[1..]);
    }
  }

  datatype Action = Created | Updated | Unchanged

  datatype Reconciled = Reconciled(text: string, action: Action)

  function OneNewline(s: string): string { RStripNl(s) + "\n" }

  /** `reconcile_rules_text`; None where the markers are corrupt. */
  function Reconcile(existing: string, newBlock: string): Option<Reconciled> {
    var block := OneNewline(newBlock);
    if Strip(existing) == "" then Some(Reconciled(block, Created))
    else
      match Extract(existing)
      case Corrupt => None
      case NoBlock =>
        var result := JoinRegions([existing, block]);
        Some(if result == existing then Reconciled(existing, Unchanged) else Reconciled(result, Updated))
      case Block(start, end) =>
        var result := JoinRegions([existing[..start], block, existing[end..]]);
        Some(if result == existing then Reconciled(existing, Unchanged) else Reconciled(result, Updated))
  }

  /**
   What is reconciled: refused where the markers are corrupt in a text that is not blank; a blank text becomes
   the block alone; and the answer is "unchanged" exactly where the text stays as it is.
   */
  lemma ReconcileExactly(existing: string, newBlock: string)
    ensures Reconcile(existing, newBlock) == None <==> !Blank(existing) && Extract(existing) == Corrupt
    ensures Blank(existing) ==> Reconcile(existing, newBlock) == Some(Reconciled(OneNewline(newBlock), Created))
    ensures !Blank(existing) && Reconcile(existing, newBlock).Some? ==>
      var r := Reconcile(existing, newBlock).value;
      (r.action == Unchanged <==> r.text == existing) && (r.action == Updated <==> r.text != existing)
  {
    hide Extract, JoinRegions, OneNewline, Blank, Strip;
    StripProps(existing);
  }

  /** A block that starts and ends with its markers and holds each once. */
  ghost predicate IsBlock(b: string) {
    var body := RStripNl(b);
    && OMG_START <= body && |body| >= |OMG_START| + |OMG_END| && body[|body| - |OMG_END|..] == OMG_END
    && OnlyAt(body, OMG_START, 0) && OnlyAt(body, OMG_END, |body| - |OMG_END|)
  }

  /** The text with the block between two stripped regions. */
  function Spliced(before: string, body: string, after: string): string {
    (if before == "" then "" else before + "\n") + body + "\n" + (if after == "" then "" else after + "\n")
  }

  lemma BlockFacts(b: string)
    requires IsBlock(b)
    ensures var body := RStripNl(b);
      Tight(body) && body != "" && StripNl(OneNewline(b)) == body && Strip(OneNewline(b)) != "" && !Blank(body)
  {
    MarkersDoNotOverlap();
    var body := RStripNl(b);
    assert body[0] == OMG_START[0] == '<';
    RStripNlFacts(b);
    assert "" + body + "\n" == OneNewline(b);
    StripNlOf("", body, "\n");
    StripNotBlank(OneNewline(b), 0);
  }

  lemma StripNotBlank(s: string, i: nat)
    requires i < |s| && !IsSpace(s[i])
    ensures Strip(s) != ""
  {
    StripProps(s);
  }

  lemma CleanedPush(parts: seq<string>, x: string)
    ensures Cleaned(parts + [x]) == Cleaned(parts) + (if StripNl(x) == "" then [] else [StripNl(x)])
  {
    assert (parts + [x])[..|parts|] == parts;
  }

  lemma CleanedThree(x: string, block: string, y: string)
    ensures Cleaned([x, block]) == Cleaned([x]) + (if StripNl(block) == "" then [] else [StripNl(block)])
    ensures Cleaned([x, block, y]) == Cleaned([x, block]) + (if StripNl(y) == "" then [] else [StripNl(y)])
    ensures Cleaned([x]) == if StripNl(x) == "" then [] else [StripNl(x)]
  {
    hide StripNl;
    CleanedPush([], x);
    CleanedPush([x], block);
    CleanedPush([x, block], y);
    assert [] + [x] == [x] && [x] + [block] == [x, block] && [x, block] + [y] == [x, block, y];
  }

  lemma JoinOfThree(p: string, body: string, q: string)
    ensures Join([body], '\n') + "\n" == Spliced("", body, "")
    ensures p != "" ==> Join([p, body], '\n') + "\n" == Spliced(p, body, "")
    ensures q != "" ==> Join([body, q], '\n') + "\n" == Spliced("", body, q)
    ensures p != "" && q != "" ==> Join([p, body, q], '\n') + "\n" == Spliced(p, body, q)
  {
    assert [body, q][1..] == [q] && [p, body][1..] == [body] && [p, body, q][1..] == [body, q];
    assert Join([p, body], '\n') + "\n" == p + "\n" + body + "\n";
    assert Join([body, q], '\n') + "\n" == body + "\n" + q + "\n";
    assert Join([body, q], '\n') == body + "\n" + q;
    assert Join([p, body, q], '\n') == p + "\n" + Join([body, q], '\n');
    assert p + "\n" + (body + "\n" + q) + "\n" == p + "\n" + body + "\n" + (q + "\n");
  }

  lemma JoinIsSpliced(x: string, b: string, y: string)
    requires IsBlock(b)
    ensures JoinRegions([x, OneNewline(b), y]) == Spliced(StripNl(x), RStripNl(b), StripNl(y))
    ensures JoinRegions([x, OneNewline(b)]) == Spliced(StripNl(x), RStripNl(b), "")
  {
    hide StripNl, IsBlock, OneNewline, Cleaned, Join, Spliced;
    BlockFacts(b);
    CleanedThree(x, OneNewline(b), y);
    JoinOfThree(StripNl(x), RStripNl(b), StripNl(y));
    assert Cleaned([x, OneNewline(b)]) == (if StripNl(x) == "" then [RStripNl(b)] else [StripNl(x), RStripNl(b)]);
    assert Cleaned([x, OneNewline(b), y]) ==
      if StripNl(x) == "" then (if StripNl(y) == "" then [RStripNl(b)] else [RStripNl(b), StripNl(y)])
      else if StripNl(y) == "" then [StripNl(x), RStripNl(b)] else [StripNl(x), RStripNl(b), StripNl(y)];
  }

  lemma SplicedSpan(before: string, b: string, after: string)
    requires IsBlock(b) && MarkerFree(before) && MarkerFree(after)
    ensures var body := RStripNl(b);
      var n := if before == "" then 0 else |before| + 1;
      Extract(Spliced(before, body, after)) == Block(n, n + |body|)
  {
    MarkersDoNotOverlap();
    var body := RStripNl(b);
    var n := if before == "" then 0 else |before| + 1;
    hide Spliced, Index, Count, Absent, Occurs, RStripNl, StripNl;
    SplicedMarker(before, body, after, OMG_START, 0);
    SplicedMarker(before, body, after, OMG_END, |body| - |OMG_END|);
    OnlyIsIndex(Spliced(before, body, after), OMG_START, n);
    OnlyIsIndex(Spliced(before, body, after), OMG_END, n + |body| - |OMG_END|);
  }

  lemma SplicedMarker(before: string, body: string, after: string, m: string, k: nat)
    requires |m| > 0 && '\n' !in m && OnlyAt(body, m, k) && Absent(before, m) && Absent(after, m)
    ensures OnlyAt(Spliced(before, body, after), m, k + if before == "" then 0 else |before| + 1)
  {
    var n := if before == "" then 0 else |before| + 1;
    var tail := if after == "" then "" else after + "\n";
    var text := Spliced(before, body, after);
    forall i ensures !Occurs(tail, m, i) {
      if after != "" {
        assert tail == after + "\n" + "";
        AcrossNewline(after, "", m, i);
      }
    }
    forall i ensures Occurs(body + "\n" + tail, m, i) <==> i == k {
      AcrossNewline(body, tail, m, i);
    }
    forall i ensures Occurs(text, m, i) <==> i == k + n {
      if before == "" {
        assert text == body + "\n" + tail;
      } else {
        assert text == before + "\n" + (body + "\n" + tail);
        AcrossNewline(before, body + "\n" + tail, m, i);
      }
    }
  }

  // ---------- installing again ----------

  lemma SplicedAgain(before: string, b: string, after: string)
    requires IsBlock(b) && Tight(before) && Tight(after) && MarkerFree(before) && MarkerFree(after)
    ensures var text := Spliced(before, RStripNl(b), after);
      Reconcile(text, b) == Some(Reconciled(text, Unchanged))
  {
    hide StripNl, RStripNl, Extract, JoinRegions, Tight, MarkerFree, Strip, Blank, Count, Index;
    var body := RStripNl(b);
    var text := Spliced(before, body, after);
    var n := if before == "" then 0 else |before| + 1;
    BlockFacts(b);
    MarkersDoNotOverlap();
    SplicedSpan(before, b, after);
    assert text[n] == body[0] == OMG_START[0] == '<';
    StripNotBlank(text, n);
    SplicedRegions(before, body, after);
    JoinIsSpliced(text[..n], b, text[n + |body|..]);
  }

  lemma SplicedRegions(before: string, body: string, after: string)
    requires Tight(before) && Tight(after)
    ensures var text := Spliced(before, body, after);
      var n := if before == "" then 0 else |before| + 1;
      && n + |body| <= |text| && StripNl(text[..n]) == before && StripNl(text[n + |body|..]) == after
  {
    hide StripNl;
    var text := Spliced(before, body, after);
    var n := if before == "" then 0 else |before| + 1;
    if before == "" {
      assert text[..n] == "" + "" + "";
      StripNlOf("", "", "");
    } else {
      assert text[..n] == "" + before + "\n";
      StripNlOf("", before, "\n");
    }
    if after == "" {
      assert text[n + |body|..] == "" + "" + "\n";
      StripNlOf("", "", "\n");
    } else {
      assert text[n + |body|..] == "\n" + after + "\n";
      StripNlOf("\n", after, "\n");
    }
  }

  lemma StrippedIsMarkerFree(text: string)
    requires MarkerFree(text)
    ensures MarkerFree(StripNl(text)) && Tight(StripNl(text))
  {
    hide StripNl;
    StripNlFacts(text);
    var i, j :| 0 <= i <= j <= |text| && StripNl(text) == text[i..j];
    PartOfAbsent(text, OMG_START, i, j);
    PartOfAbsent(text, OMG_END, i, j);
  }

  /** The two regions around the block, as they end up in the file. */
  function Regions(existing: string): (string, string) {
    if Strip(existing) == "" then ("", "")
    else
      match Extract(existing)
      case Block(start, end) => (StripNl(existing[..start]), StripNl(existing[end..]))
      case _ => (StripNl(existing), "")
  }

  lemma ReconcileIsSpliced(existing: string, b: string)
    requires IsBlock(b) && Reconcile(existing, b).Some?
    ensures var (before, after) := Regions(existing);
      && Reconcile(existing, b).value.text == Spliced(before, RStripNl(b), after)
      && Tight(before) && Tight(after) && MarkerFree(before) && MarkerFree(after)
  {
    hide StripNl, Extract, JoinRegions, Tight, Count, Index;
    if Strip(existing) == "" {
      assert "" + RStripNl(b) + "\n" + "" == OneNewline(b);
      assert MarkerFree("") && Tight("") by { EmptyRegion(); }
    } else if Extract(existing).NoBlock? {
      JoinIsSpliced(existing, b, "");
      NoBlockIsMarkerFree(existing);
      StrippedIsMarkerFree(existing);
      assert MarkerFree("") && Tight("") by { EmptyRegion(); }
    } else {
      var span := Extract(existing);
      JoinIsSpliced(existing[..span.start], b, existing[span.end..]);
      AroundIsMarkerFree(existing);
      StrippedIsMarkerFree(existing[..span.start]);
      StrippedIsMarkerFree(existing[span.end..]);
    }
  }

  lemma EmptyRegion()
    ensures MarkerFree("") && Tight("")
  {}

  /** Installing the same block again changes nothing, whatever the file was before. */
  lemma InstallTwice(existing: string, b: string)
    requires IsBlock(b) && Reconcile(existing, b).Some?
    ensures var text := Reconcile(existing, b).value.text;
      Reconcile(text, b) == Some(Reconciled(text, Unchanged))
  {
    hide Reconcile, Regions, Spliced, Tight;
    ReconcileIsSpliced(existing, b);
    var (before, after) := Regions(existing);
    SplicedAgain(before, b, after);
  }

  /** After an install the file holds one block, the installed one. */
  lemma InstalledSpan(existing: string, b: string)
    requires IsBlock(b) && Reconcile(existing, b).Some?
    ensures var text := Reconcile(existing, b).value.text;
      Extract(text).Block? && text[Extract(text).start..Extract(text).end] == RStripNl(b)
  {
    hide StripNl, Extract, JoinRegions, Tight, Reconcile, IsBlock, Strip, Count, Index, MarkerFree;
    ReconcileIsSpliced(existing, b);
    var (before, after) := Regions(existing);
    var body := RStripNl(b);
    SplicedSpan(before, b, after);
    SplicedRegions(before, body, after);
    var text := Spliced(before, body, after);
    var n := if before == "" then 0 else |before| + 1;
    assert text[n..n + |body|] == body;
  }

  /** The text around the block is the text of before, up to newlines next to the block and at the ends. */
  lemma InstallKeepsTheRest(existing: string, b: string)
    requires IsBlock(b) && Reconcile(existing, b).Some? && Strip(existing) != ""
    ensures var text := Reconcile(existing, b).value.text;
      && Extract(text).Block? && text[Extract(text).start..Extract(text).end] == RStripNl(b)
      && (Extract(existing).Block? ==>
            && StripNl(text[..Extract(text).start]) == StripNl(existing[..Extract(existing).start])
            && StripNl(text[Extract(text).end..]) == StripNl(existing[Extract(existing).end..]))
      && (Extract(existing).NoBlock? ==>
            StripNl(text[..Extract(text).start]) == StripNl(existing) && text[Extract(text).end..] == "\n")
  {
    hide StripNl, Extract, JoinRegions, Tight, Reconcile, IsBlock, Strip, Count, Index, MarkerFree;
    ReconcileIsSpliced(existing, b);
    var (before, after) := Regions(existing);
    var body := RStripNl(b);
    SplicedSpan(before, b, after);
    SplicedRegions(before, body, after);
    var text := Spliced(before, body, after);
    var n := if before == "" then 0 else |before| + 1;
    assert text[n..n + |body|] == body;
    assert after == "" ==> text[n + |body|..] == "\n";
  }

  // ---------- taking it out ----------

  datatype Removal = LeftAlone | Removed | KeptUser(text: string)

  /** `uninstall_global_rules` on the text of the file; None where the markers are corrupt. */
  function Uninstall(text: string): Option<Removal> {
    match Extract(text)
    case Corrupt => None
    case NoBlock => Some(LeftAlone)
    case Block(start, end) =>
      var remainder := Strip(text[..start] + text[end..]);
      if remainder == "" then Some(Removed) else Some(KeptUser(remainder + "\n"))
  }

  /**
   What is taken out: refused where the markers are corrupt, nothing without a block; else the block goes, and
   with it the file where only white space is left.
   */
  lemma UninstallExactly(text: string)
    ensures Uninstall(text) == None <==> Extract(text) == Corrupt
    ensures Uninstall(text) == Some(LeftAlone) <==> MarkerFree(text)
    ensures Extract(text).Block? ==>
      var rest := text[..Extract(text).start] + text[Extract(text).end..];
      Uninstall(text) == Some(if Blank(rest) then Removed else KeptUser(Strip(rest) + "\n"))
  {
    hide Extract, Blank, Strip, MarkerFree;
    NoBlockIsMarkerFree(text);
    if Extract(text).Block? { StripProps(text[..Extract(text).start] + text[Extract(text).end..]); }
  }

  lemma {:induction false} RStripBlankSuffix(s: string, b: string)
    requires Blank(b)
    ensures RStrip(s + b) == RStrip(s)
    decreases |b|
  {
    if |b| > 0 {
      assert (s + b)[..|s + b| - 1] == s + b[..|b| - 1];
      RStripBlankSuffix(s, b[..|b| - 1]);
    } else {
      assert s + b == s;
    }
  }

  lemma {:induction false} LStripKeeps(s: string, b: string)
    requires !Blank(s)
    ensures LStrip(s + b) == LStrip(s) + b
  {
    if IsSpace(s[0]) {
      assert (s + b)[1..] == s[1..] + b;
      LStripKeeps(s[1..], b);
    }
  }

  lemma StripAround(a: string, s: string, b: string)
    requires Blank(a) && Blank(b)
    ensures Strip(a + s + b) == Strip(s)
  {
    hide IsSpace;
    assert a + s + b == a + (s + b);
    LStripBlankPrefix(a, s + b);
    if Blank(s) {
      StripProps(s);
      StripProps(a + s + b);
    } else {
      LStripKeeps(s, b);
      RStripBlankSuffix(LStrip(s), b);
    }
  }

  /** Newlines stripped first make no difference. */
  lemma StripAfterStripNl(s: string)
    ensures Strip(StripNl(s)) == Strip(s)
  {
    LStripNlFacts(s);
    var l := LStripNl(s);
    RStripNlFacts(l);
    var r := StripNl(s);
    var a, b := s[..|s| - |l|], l[|r|..];
    assert s == a + r + b;
    StripAround(a, r, b);
  }

  /** Uninstalling what was installed into a file without markers gives that file back, stripped, with one newline. */
  lemma UninstallUndoesInstall(existing: string, b: string)
    requires IsBlock(b) && MarkerFree(existing)
    ensures Reconcile(existing, b).Some?
    ensures Uninstall(Reconcile(existing, b).value.text) ==
      Some(if Strip(existing) == "" then Removed else KeptUser(Strip(existing) + "\n"))
  {
    hide StripNl, Extract, JoinRegions, Tight, Count, Index, Strip;
    NoBlockIsMarkerFree(existing);
    ReconcileIsSpliced(existing, b);
    var (before, after) := Regions(existing);
    SplicedSpan(before, b, after);
    var body := RStripNl(b);
    var text := Spliced(before, body, after);
    var n := if before == "" then 0 else |before| + 1;
    assert after == "";
    assert text[n + |body|..] == "\n";
    if before == "" {
      assert text[..n] + text[n + |body|..] == "\n";
      StripAround("", "", "\n");
      assert "" + "" + "\n" == "\n";
    } else {
      assert text[..n] + text[n + |body|..] == before + "\n\n";
      StripAround("", before, "\n\n");
      assert "" + before + "\n\n" == before + "\n\n";
    }
    StripAfterStripNl(existing);
    StripNothing();
  }

  lemma StripNothing()
    ensures Strip("") == ""
  {}

  /** Any text without markers can be framed as a block. */
  lemma FramedIsBlock(middle: string)
    requires MarkerFree(middle)
    ensures IsBlock("<!-- OMG:START -->" + "\n" + middle + "\n" + "<!-- OMG:END -->" + "\n")
  {
    MarkersDoNotOverlap();
    var body := OMG_START + "\n" + middle + "\n" + OMG_END;
    RStripTail(body, "\n");
    var tail := middle + "\n" + OMG_END;
    assert body == OMG_START + "\n" + tail;
    var at := |body| - |OMG_END|;
    assert body[at..] == OMG_END && body[at..at + |OMG_END|] == OMG_END;
    assert body[0..|OMG_START|] == OMG_START;
    forall i ensures Occurs(body, OMG_START, i) <==> i == 0 {
      AcrossNewline(OMG_START, tail, OMG_START, i);
      AcrossNewline(middle, OMG_END, OMG_START, i - |OMG_START| - 1);
    }
    forall i ensures Occurs(body, OMG_END, i) <==> i == at {
      AcrossNewline(OMG_START, tail, OMG_END, i);
      AcrossNewline(middle, OMG_END, OMG_END, i - |OMG_START| - 1);
      EndNotInStart(i);
    }
  }

  lemma EndNotInStart(i: int)
    ensures !Occurs(OMG_START, OMG_END, i)
  {
    if Occurs(OMG_START, OMG_END, i) {
      assert Occurs(OMG_START, OMG_START, 0);
      MarkersApart(OMG_START, 0, i);
    }
  }
}
