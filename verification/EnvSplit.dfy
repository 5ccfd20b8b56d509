/**
 The bounded splitter of omg_cli/deny.py for `env -S`: its tokens are never larger than the string,
 and it undoes a quoting that every list of words has.
 */
module EnvSplit {
  import opened Options
  import opened Text

  const CHAR_CAP := 512
  const TOKEN_CAP := 16

  /** The sum of word length plus one. */
  function Size(words: seq<string>): nat {
    if |words| == 0 then 0 else Size(words[..|words| - 1]) + |words[|words| - 1]| + 1
  }

  lemma {:induction false} SizeAppend(a: seq<string>, b: seq<string>)
    ensures Size(a + b) == Size(a) + Size(b)
    decreases |b|
  {
    if |b| == 0 {
      assert a + b == a;
    } else {
      var n := |b| - 1;
      assert (a + b)[..|a| + n] == a + b[..n];
      SizeAppend(a, b[..n]);
    }
  }

  /** `sub in s` for two characters. */
  predicate Contains2(s: string, c: char, d: char) {
    exists i :: 0 <= i < |s| - 1 && s[i] == c && s[i + 1] == d
  }

  // ---------- the splitter as a function ----------

  datatype Scan = Scan(tokens: seq<string>, buf: string, quote: Option<char>, started: bool)

  /** `flush`; None at the token cap. */
  function Flush(st: Scan): Option<Scan> {
    if !st.started then Some(st)
    else if |st.tokens| >= TOKEN_CAP then None
    else Some(st.(tokens := st.tokens + [st.buf], buf := "", started := false))
  }

  function Take(st: Scan, c: char): Scan { st.(buf := st.buf + [c], started := true) }

  /** The rest of the scan; None is indeterminate. */
  function SplitFrom(raw: string, index: nat, st: Scan): Option<seq<string>>
    requires index <= |raw|
    decreases |raw| - index
  {
    if index == |raw| then Finish(st)
    else
      var c := raw[index];
      var bare := st.quote.None?;
      if bare && c in {' ', '\t'} then
        (match Flush(st) case None => None case Some(next) => SplitFrom(raw, index + 1, next))
      else if bare && c == '#' && !st.started then Finish(st)
      else if bare && IsSpace(c) then None
      else if c == '\\' then
        if index + 1 == |raw| then None
        else
          var d := raw[index + 1];
          if d == 'c' then (match Flush(st) case None => None case Some(next) => Some(next.tokens))
          else if bare && d in {' ', 't', '_'} then
            (match Flush(st) case None => None case Some(next) => SplitFrom(raw, index + 2, next))
          else if d in {'\\', '\'', '"', '$', '#'} then SplitFrom(raw, index + 2, Take(st, d))
          else if !bare && d in {' ', 't'} then SplitFrom(raw, index + 2, Take(st, if d == ' ' then ' ' else '\t'))
          else None
      else if bare && c in {'\'', '"'} then SplitFrom(raw, index + 1, st.(quote := Some(c), started := true))
      else if !bare && c == st.quote.value then SplitFrom(raw, index + 1, st.(quote := None))
      else if bare && c == '$' then None
      else SplitFrom(raw, index + 1, Take(st, c))
  }

  /** The end of the string, or a comment. */
  function Finish(st: Scan): Option<seq<string>> {
    if st.quote.Some? then None
    else match Flush(st) case None => None case Some(next) => Some(next.tokens)
  }

  const START := Scan([], "", None, false)

  /** `_parse_env_split_string` */
  function SplitString(raw: string): Option<seq<string>> {
    if Contains2(raw, '$', '{') || |raw| > CHAR_CAP then None else SplitFrom(raw, 0, START)
  }

  // ---------- the tokens are bounded by the string ----------

  predicate Bounded(st: Scan, index: nat) {
    && (!st.started ==> st.buf == "") && |st.tokens| <= TOKEN_CAP
    && Size(st.tokens) + |st.buf| <= index
  }

  lemma FlushBounded(st: Scan, index: nat)
    requires Bounded(st, index) && Flush(st).Some?
    ensures Bounded(Flush(st).value, index + 1) && Size(Flush(st).value.tokens) <= index + 1
  {
    SizeAppend(st.tokens, [st.buf]);
  }

  lemma {:induction false} SplitFromBounded(raw: string, index: nat, st: Scan)
    requires index <= |raw| && Bounded(st, index)
    ensures var r := SplitFrom(raw, index, st);
      r.Some? ==> Size(r.value) <= |raw| + 1 && |r.value| <= TOKEN_CAP
    decreases |raw| - index
  {
    hide Size, IsSpace;
    if Flush(st).Some? { FlushBounded(st, index); }
    if index < |raw| {
      var c := raw[index];
      if Flush(st).Some? { SplitFromBounded(raw, index + 1, Flush(st).value); }
      SplitFromBounded(raw, index + 1, st.(quote := Some(c), started := true));
      SplitFromBounded(raw, index + 1, st.(quote := None));
      SplitFromBounded(raw, index + 1, Take(st, c));
      if index + 1 < |raw| {
        var d := raw[index + 1];
        if Flush(st).Some? { SplitFromBounded(raw, index + 2, Flush(st).value); }
        SplitFromBounded(raw, index + 2, Take(st, d));
        SplitFromBounded(raw, index + 2, Take(st, '\t'));
      }
    }
  }

  /** At most 16 tokens, together no larger than the string. */
  lemma SplitIsBounded(raw: string)
    requires SplitString(raw).Some?
    ensures Size(SplitString(raw).value) <= |raw| + 1 && |SplitString(raw).value| <= TOKEN_CAP
  {
    hide SplitFrom;
    SplitFromBounded(raw, 0, START);
  }

  // ---------- a quoting it undoes ----------

  function QuoteChar(c: char): string {
    if c == '\\' then "\\\\" else if c == '"' then "\\\"" else if c == '$' then "$\"\"" else [c]
  }

  function QuoteChars(word: string): string {
    if |word| == 0 then "" else QuoteChars(word[..|word| - 1]) + QuoteChar(word[|word| - 1])
  }

  /** The word in double quotes; after a dollar the quotes are closed and opened, so that no `${` appears. */
  function Quote(word: string): string { "\"" + QuoteChars(word) + "\"" }

  function QuoteAll(words: seq<string>): string {
    if |words| == 0 then ""
    else if |words| == 1 then Quote(words[0])
    else QuoteAll(words[..|words| - 1]) + " " + Quote(words[|words| - 1])
  }

  /** Scanning the text `piece` at `index` leads from one state to another. */
  predicate Leads(raw: string, index: nat, st: Scan, piece: string, after: Scan) {
    index + |piece| <= |raw| && SplitFrom(raw, index, st) == SplitFrom(raw, index + |piece|, after)
  }

  lemma QuotedChar(raw: string, index: nat, st: Scan, c: char)
    requires index + |QuoteChar(c)| <= |raw| && raw[index..index + |QuoteChar(c)|] == QuoteChar(c)
    requires st.quote == Some('"')
    ensures Leads(raw, index, st, QuoteChar(c), Take(st, c))
  {
    hide Finish, Flush, SplitFrom;
    var q := QuoteChar(c);
    assert forall i :: 0 <= i < |q| ==> raw[index + i] == raw[index..index + |q|][i] == q[i];
    if c == '\\' || c == '"' {
      assert q[0] == '\\' && q[1] == c;
      EscapedStep(raw, index, st);
    } else {
      assert q[0] == c;
      PlainStep(raw, index, st);
      if c == '$' {
        assert q[1] == '"' && q[2] == '"';
        CloseStep(raw, index + 1, Take(st, c));
        OpenStep(raw, index + 2, Take(st, c).(quote := None));
        assert Take(st, c).(quote := None).(quote := Some('"'), started := true) == Take(st, c);
      }
    }
  }

  // Single steps of the scan.

  lemma EscapedStep(raw: string, index: nat, st: Scan)
    requires index + 1 < |raw| && raw[index] == '\\' && raw[index + 1] in {'\\', '"'} && st.quote.Some?
    ensures SplitFrom(raw, index, st) == SplitFrom(raw, index + 2, Take(st, raw[index + 1]))
  {
    hide Finish, Flush, IsSpace;
  }

  lemma PlainStep(raw: string, index: nat, st: Scan)
    requires index < |raw| && raw[index] != '\\' && st.quote.Some? && raw[index] != st.quote.value
    ensures SplitFrom(raw, index, st) == SplitFrom(raw, index + 1, Take(st, raw[index]))
  {
    hide Finish, Flush, IsSpace;
  }

  lemma CloseStep(raw: string, index: nat, st: Scan)
    requires index < |raw| && st.quote == Some('"') && raw[index] == '"'
    ensures SplitFrom(raw, index, st) == SplitFrom(raw, index + 1, st.(quote := None))
  {
    hide Finish, Flush, IsSpace;
  }

  lemma OpenStep(raw: string, index: nat, st: Scan)
    requires index < |raw| && st.quote.None? && raw[index] == '"'
    ensures SplitFrom(raw, index, st) == SplitFrom(raw, index + 1, st.(quote := Some('"'), started := true))
  {
    hide Finish, Flush;
    assert !IsSpace('"');
  }

  lemma {:induction false} QuotedChars(raw: string, index: nat, st: Scan, word: string)
    requires index + |QuoteChars(word)| <= |raw| && raw[index..index + |QuoteChars(word)|] == QuoteChars(word)
    requires st.quote == Some('"') && st.started
    ensures Leads(raw, index, st, QuoteChars(word), st.(buf := st.buf + word))
    decreases |word|
  {
    hide SplitFrom, QuoteChar;
    if |word| == 0 {
      assert st.buf + word == st.buf;
    } else {
      var init, c := word[..|word| - 1], word[|word| - 1];
      var p, q := QuoteChars(init), QuoteChar(c);
      assert QuoteChars(word) == p + q;
      assert raw[index..index + |p|] == raw[index..index + |p + q|][..|p|];
      assert raw[index + |p|..index + |p| + |q|] == raw[index..index + |p + q|][|p|..];
      QuotedChars(raw, index, st, init);
      var mid := st.(buf := st.buf + init);
      QuotedChar(raw, index + |p|, mid, c);
      assert st.buf + init + [c] == st.buf + word;
    }
  }

  lemma InnerSlice(s: string, i: nat, n: nat)
    requires i + n + 2 <= |s|
    ensures s[i + 1..i + 1 + n] == s[i..i + n + 2][1..n + 1]
  {
    var a, b := s[i + 1..i + 1 + n], s[i..i + n + 2][1..n + 1];
    assert forall p :: 0 <= p < n ==> a[p] == b[p];
    assert a == b;
  }

  lemma QuotedWord(raw: string, index: nat, st: Scan, word: string)
    requires index + |Quote(word)| <= |raw| && raw[index..index + |Quote(word)|] == Quote(word)
    requires st.quote.None? && !st.started && st.buf == ""
    ensures Leads(raw, index, st, Quote(word), st.(buf := word, started := true))
  {
    hide QuoteChars, Finish, Flush, SplitFrom;
    var n := |QuoteChars(word)|;
    var piece := raw[index..index + n + 2];
    assert piece == "\"" + QuoteChars(word) + "\"";
    assert raw[index] == piece[0] && raw[index + n + 1] == piece[n + 1];
    assert piece[1..n + 1] == QuoteChars(word);
    InnerSlice(raw, index, n);
    var inside := st.(quote := Some('"'), started := true);
    OpenStep(raw, index, st);
    QuotedChars(raw, index + 1, inside, word);
    var full := inside.(buf := inside.buf + word);
    assert inside.buf + word == word;
    CloseStep(raw, index + 1 + n, full);
    assert full.(quote := None) == st.(buf := word, started := true);
  }

  /** After the first words, the last of them is still in the buffer. */
  function Holding(words: seq<string>): Scan
    requires |words| > 0
  {
    Scan(words[..|words| - 1], words[|words| - 1], None, true)
  }

  lemma {:induction false} QuotedWords(raw: string, words: seq<string>)
    requires 0 < |words| <= TOKEN_CAP && |QuoteAll(words)| <= |raw| && raw[..|QuoteAll(words)|] == QuoteAll(words)
    ensures Leads(raw, 0, START, QuoteAll(words), Holding(words))
    decreases |words|
  {
    hide Quote, Finish, IsSpace;
    if |words| == 1 {
      assert raw[0..0 + |Quote(words[0])|] == Quote(words[0]);
      QuotedWord(raw, 0, START, words[0]);
      assert Holding(words) == START.(buf := words[0], started := true);
    } else {
      var init, last := words[..|words| - 1], words[|words| - 1];
      var p, q := QuoteAll(init), Quote(last);
      assert QuoteAll(words) == p + " " + q;
      var prefix := raw[..|p| + 1 + |q|];
      assert raw[..|p|] == prefix[..|p|] == p;
      assert raw[|p|] == prefix[|p|] == ' ';
      assert raw[|p| + 1..|p| + 1 + |q|] == prefix[|p| + 1..] == q;
      QuotedWords(raw, init);
      var flushed := Scan(init, "", None, false);
      assert Flush(Holding(init)) == Some(flushed) by { assert init[..|init| - 1] + [init[|init| - 1]] == init; }
      assert SplitFrom(raw, |p|, Holding(init)) == SplitFrom(raw, |p| + 1, flushed);
      QuotedWord(raw, |p| + 1, flushed, last);
      assert flushed.(buf := last, started := true) == Holding(words);
    }
  }

  /** No dollar is followed by a brace, and no quoted text begins with one. */
  predicate NoBraceAfterDollar(s: string) {
    !Contains2(s, '$', '{') && (|s| > 0 ==> s[|s| - 1] != '$')
  }

  lemma JoinNoBrace(a: string, b: string)
    requires NoBraceAfterDollar(a) && NoBraceAfterDollar(b)
    ensures NoBraceAfterDollar(a + b)
  {
    var s := a + b;
    forall i | 0 <= i < |s| - 1 ensures !(s[i] == '$' && s[i + 1] == '{') {
      if i + 1 < |a| {
        assert a[i] == s[i] && a[i + 1] == s[i + 1];
      } else if i >= |a| {
        assert b[i - |a|] == s[i] && b[i + 1 - |a|] == s[i + 1];
      }
    }
  }

  lemma {:induction false} QuoteNoBrace(word: string)
    ensures NoBraceAfterDollar(QuoteChars(word)) && NoBraceAfterDollar(Quote(word))
    decreases |word|
  {
    if |word| > 0 {
      QuoteNoBrace(word[..|word| - 1]);
      JoinNoBrace(QuoteChars(word[..|word| - 1]), QuoteChar(word[|word| - 1]));
    }
    JoinNoBrace("\"", QuoteChars(word));
    JoinNoBrace("\"" + QuoteChars(word), "\"");
  }

  lemma {:induction false} QuoteAllNoBrace(words: seq<string>)
    ensures NoBraceAfterDollar(QuoteAll(words))
    decreases |words|
  {
    hide NoBraceAfterDollar, Quote;
    if |words| == 0 {
      assert NoBraceAfterDollar("") by { EmptyNoBrace(); }
    } else {
      var last := words[|words| - 1];
      QuoteNoBrace(last);
      if |words| > 1 {
        QuoteAllNoBrace(words[..|words| - 1]);
        assert NoBraceAfterDollar(" ") by { EmptyNoBrace(); }
        JoinNoBrace(QuoteAll(words[..|words| - 1]), " ");
        JoinNoBrace(QuoteAll(words[..|words| - 1]) + " ", Quote(last));
      }
    }
  }

  lemma EmptyNoBrace()
    ensures NoBraceAfterDollar("") && NoBraceAfterDollar(" ")
  {}

  /** Up to 16 words of any characters come back from their quoting, if that fits 512 characters. */
  lemma SplitUndoesQuoting(words: seq<string>)
    requires |words| <= TOKEN_CAP && |QuoteAll(words)| <= CHAR_CAP
    ensures SplitString(QuoteAll(words)) == Some(words)
  {
    hide Contains2, Quote;
    var raw := QuoteAll(words);
    QuoteAllNoBrace(words);
    if |words| > 0 {
      assert raw[..|raw|] == raw;
      QuotedWords(raw, words);
      assert words[..|words| - 1] + [words[|words| - 1]] == words;
    }
  }

  // ---------- the code ----------

  /** `_parse_env_split_string` as the loop of the code. */
  method ParseEnvSplitString(raw: string) returns (result: Option<seq<string>>)
    ensures result == SplitString(raw)
  {
    hide Contains2, IsSpace, Finish;
    if Contains2(raw, '$', '{') || |raw| > CHAR_CAP { return None; }
    var tokens: seq<string>, buf, quote, started := [], "", None, false;
    var index := 0;
    while index < |raw|
      invariant index <= |raw| && SplitFrom(raw, index, Scan(tokens, buf, quote, started)) == SplitFrom(raw, 0, START)
    {
      var c := raw[index];
      if quote == None && c in {' ', '\t'} {
        if started {
          if |tokens| >= TOKEN_CAP { return None; }
          tokens, buf, started := tokens + [buf], "", false;
        }
        index := index + 1;
        continue;
      }
      if quote == None && c == '#' && !started { break; }
      if quote == None && IsSpace(c) { return None; }
      if c == '\\' {
        if index + 1 == |raw| { return None; }
        var following := raw[index + 1];
        if following == 'c' {
          if started {
            if |tokens| >= TOKEN_CAP { return None; }
            tokens := tokens + [buf];
          }
          return Some(tokens);
        }
        if quote == None && following in {' ', 't', '_'} {
          if started {
            if |tokens| >= TOKEN_CAP { return None; }
            tokens, buf, started := tokens + [buf], "", false;
          }
          index := index + 2;
          continue;
        }
        if following in {'\\', '\'', '"', '$', '#'} {
          buf, started := buf + [following], true;
          index := index + 2;
          continue;
        }
        if quote != None && following in {' ', 't'} {
          buf, started := buf + [if following == ' ' then ' ' else '\t'], true;
          index := index + 2;
          continue;
        }
        return None;
      }
      if quote == None && c in {'\'', '"'} {
        quote, started := Some(c), true;
        index := index + 1;
        continue;
      }
      if quote == Some(c) {
        quote := None;
        index := index + 1;
        continue;
      }
      if quote == None && c == '$' { return None; }
      buf, started := buf + [c], true;
      index := index + 1;
    }
    result := Ending(Scan(tokens, buf, quote, started));
    assert SplitFrom(raw, index, Scan(tokens, buf, quote, started)) == Finish(Scan(tokens, buf, quote, started));
  }

  method Ending(st: Scan) returns (result: Option<seq<string>>)
    ensures result == Finish(st)
  {
    if st.quote != None { return None; }
    if st.started {
      if |st.tokens| >= TOKEN_CAP { return None; }
      return Some(st.tokens + [st.buf]);
    }
    return Some(st.tokens);
  }
}
