/** Scalars and keys of the YAML subset: the text the printer gives them reads back as them. */
module YamlScalars {
  import opened Text
  import opened Yaml

  predicate NoBreaks(s: string) { '\n' !in s && '\r' !in s }

  /** A string without carriage returns, which the parser turns into line breaks. */
  predicate StrOk(s: string) { '\r' !in s }

  predicate KeyOk(key: string) { NoBreaks(key) && ':' !in key }

  /** A text that stands alone on a line or after `key: `, and is no block marker. */
  predicate Atom(t: string) {
    && t != "" && !IsSpace(t[0]) && !IsSpace(t[|t| - 1])
    && t[0] !in "#'|"
    && (t[0] == '"' || ':' !in t)
  }

  lemma {:induction false} EscapeFacts(s: string)
    ensures Unescape(Escape(s)) == Ok(s)
    ensures NoBreaks(s) ==> NoBreaks(Escape(s))
    ensures ':' !in s ==> ':' !in Escape(s)
  {
    if |s| > 0 {
      EscapeFacts(s[1..]);
      var e := Escape(s);
      assert [s[0]] + s[1..] == s;
      if s[0] == '\\' || s[0] == '"' {
        assert e[2..] == Escape(s[1..]);
      } else {
        assert e[1..] == Escape(s[1..]);
      }
    }
  }

  lemma QuoteFacts(s: string)
    ensures ParseScalar(Quote(s)) == Ok(Str(s))
    ensures Atom(Quote(s))
    ensures NoBreaks(s) ==> NoBreaks(Quote(s))
    ensures ':' !in s ==> ':' !in Quote(s)
  {
    hide Unescape, ReplaceDoubledQuotes, ParseDigits, AllDigits, Strip, Escape;
    EscapeFacts(s);
    var q := Quote(s);
    StripId(q);
    assert q[1..|q| - 1] == Escape(s);
  }

  lemma ForbiddenMarks()
    ensures Forbidden('#') && Forbidden('\'') && Forbidden('|') && Forbidden('"') && Forbidden('[')
    ensures Forbidden('{') && Forbidden(':')
  {}

  lemma ReservedWords()
    ensures Reserved(Lower("null")) && Reserved(Lower("true")) && Reserved(Lower("false"))
  {
    assert Lower("null") == "null" && Lower("true") == "true" && Lower("false") == "false";
  }

  lemma PlainChars(s: string)
    requires IsPlain(s)
    ensures |s| > 0 && !IsSpace(s[0]) && !IsSpace(s[|s| - 1])
    ensures s[0] !in "#'|\"-[{" && ':' !in s && !IsDigit(s[0])
    ensures s != "null" && s != "true" && s != "false"
  {
    hide Forbidden, Reserved, Lower, Strip, IsSpace;
    StripFixpoint(s);
    ForbiddenMarks();
    ReservedWords();
  }

  lemma PlainFacts(s: string)
    requires IsPlain(s)
    ensures Atom(s)
    ensures ParseScalar(s) == Ok(if s == "~" then Null else Str(s))
  {
    PlainChars(s);
    StripId(s);
  }

  lemma DigitsFacts(t: string)
    requires AllDigits(t)
    ensures Atom(t) && Atom("-" + t) && NoBreaks(t) && NoBreaks("-" + t) && ':' !in t && ':' !in "-" + t
    ensures ParseScalar(t) == Ok(Int(ParseDigits(t)))
    ensures ParseScalar("-" + t) == Ok(Int(0 - ParseDigits(t)))
  {
    hide ParseScalar;
    assert forall c :: c in t ==> IsDigit(c);
    assert IsDigit(t[0]) && IsDigit(t[|t| - 1]);
    PlainDigits(t);
    MinusDigits(t);
  }

  lemma PlainDigits(t: string)
    requires AllDigits(t)
    ensures ParseScalar(t) == Ok(Int(ParseDigits(t)))
  {
    hide ParseDigits, Unescape, ReplaceDoubledQuotes, Strip;
    assert IsDigit(t[0]) && IsDigit(t[|t| - 1]);
    StripId(t);
  }

  lemma MinusDigits(t: string)
    requires AllDigits(t)
    ensures ParseScalar("-" + t) == Ok(Int(0 - ParseDigits(t)))
  {
    hide ParseDigits, Unescape, ReplaceDoubledQuotes, Strip;
    assert IsDigit(t[0]) && IsDigit(t[|t| - 1]);
    StripId("-" + t);
    assert ("-" + t)[1..] == t;
    assert ("-" + t)[0] == '-' && !IsDigit('-');
  }

  lemma TildeIsPlain()
    ensures IsPlain("~")
  {
    StripId("~");
    assert Lower("~") == "~";
  }

  lemma WordFacts(t: string)
    requires t in ["null", "true", "false"]
    ensures Atom(t) && NoBreaks(t)
    ensures ParseScalar(t) == Ok(if t == "null" then Null else Bool(t == "true"))
  {
    StripId(t);
  }

  lemma ScalarRoundTrip(v: Value)
    requires IsScalar(v) && (v.Str? ==> !BlockForm(v.s) && StrOk(v.s))
    ensures Atom(DumpScalar(v)) && NoBreaks(DumpScalar(v))
    ensures ParseScalar(DumpScalar(v)) == Ok(if v == Str("~") then Null else v)
  {
    hide ParseScalar, Atom, IsPlain, Quote;
    match v
    case Null => WordFacts("null");
    case Bool(b) => WordFacts(DumpScalar(v));
    case Int(n) =>
      DigitsFacts(NatToString(if n < 0 then -n else n));
      NatRoundTrip(if n < 0 then -n else n);
    case Str(s) =>
      TildeIsPlain();
      if IsPlain(s) { PlainFacts(s); } else { QuoteFacts(s); }
  }

  lemma KeyFacts(key: string)
    requires KeyOk(key)
    ensures var t := DumpText(key);
      && t != "" && !IsSpace(t[0]) && !IsSpace(t[|t| - 1]) && t[0] != '-' && t[0] != '#'
      && ':' !in t && NoBreaks(t) && Strip(t) == t && ParseKey(t) == Ok(key)
    ensures IsPlain(key) ==> DumpText(key)[0] !in "'\"|{["
  {
    if IsPlain(key) {
      PlainChars(key);
    } else {
      QuoteFacts(key);
    }
    StripId(DumpText(key));
  }
}
