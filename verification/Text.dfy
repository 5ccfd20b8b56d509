/** Python string operations used by the modelled files: strip, split, join, indentation, decimal integers. */
module Text {

  /** `str.isspace`, the characters that `strip` removes. */
  predicate IsSpace(c: char) {
    || '\t' <= c <= '\r' || '\U{1C}' <= c <= ' '
    || c == '\U{85}' || c == '\U{A0}' || c == '\U{1680}'
    || '\U{2000}' <= c <= '\U{200A}' || c == '\U{2028}' || c == '\U{2029}'
    || c == '\U{202F}' || c == '\U{205F}' || c == '\U{3000}'
  }

  /** The 29 characters of Unicode that Python counts as white space. */
  const SPACES := {9, 10, 11, 12, 13, 28, 29, 30, 31, 32, 133, 160, 5760, 8192, 8193, 8194, 8195, 8196, 8197, 8198,
                   8199,
                   8200, 8201, 8202, 8232, 8233, 8239, 8287, 12288}

  lemma SpacesExactly(c: char)
    ensures IsSpace(c) <==> c as int in SPACES
  {}

  predicate IsDigit(c: char) { '0' <= c <= '9' }

  predicate AllDigits(s: string) { |s| > 0 && forall i :: 0 <= i < |s| ==> IsDigit(s[i]) }

  predicate StartsWith(s: string, prefix: string) { prefix <= s }

  predicate EndsWithChar(s: string, c: char) { |s| > 0 && s[|s| - 1] == c }

  function LStrip(s: string): string {
    if |s| > 0 && IsSpace(s[0]) then LStrip(s[1..]) else s
  }

  function RStrip(s: string): string {
    if |s| > 0 && IsSpace(s[|s| - 1]) then RStrip(s[..|s| - 1]) else s
  }

  function Strip(s: string): string { RStrip(LStrip(s)) }

  predicate Blank(s: string) { forall i :: 0 <= i < |s| ==> IsSpace(s[i]) }

  function Spaces(n: nat): (s: string)
    ensures |s| == n && forall i :: 0 <= i < n ==> s[i] == ' '
  {
    seq(n, _ => ' ')
  }

  /** Number of leading ' ' characters: `len(line) - len(line.lstrip(" "))`. */
  function IndentOf(line: string): (n: nat)
    ensures n <= |line|
  {
    if |line| > 0 && line[0] == ' ' then 1 + IndentOf(line[1..]) else 0
  }

  /** Index of the first `c`, or |s|. */
  function Find(s: string, c: char): (i: nat)
    ensures i <= |s| && c !in s[..i] && (i < |s| ==> s[i] == c)
  {
    if |s| == 0 || s[0] == c then 0
    else
      var i := 1 + Find(s[1..], c);
      assert s[..i] == [s[0]] + s[1..][..i - 1];
      i
  }

  function Split(s: string, sep: char): (parts: seq<string>)
    ensures |parts| > 0
  {
    if |s| == 0 then [""]
    else if s[0] == sep then [""] + Split(s[1..], sep)
    else
      var rest := Split(s[1..], sep);
      [[s[0]] + rest[0]] + rest[1..]
  }

  function Join(parts: seq<string>, sep: char): string {
    if |parts| == 0 then ""
    else if |parts| == 1 then parts[0]
    else parts[0] + [sep] + Join(parts[1..], sep)
  }

  lemma {:induction false} SplitOne(s: string, sep: char)
    requires sep !in s
    ensures Split(s, sep) == [s]
  {
    if |s| > 0 {
      SplitOne(s[1..], sep);
      assert [s[0]] + s[1..] == s;
    }
  }

  lemma {:induction false} SplitCons(p: string, t: string, sep: char)
    requires sep !in p
    ensures Split(p + [sep] + t, sep) == [p] + Split(t, sep)
  {
    var s := p + [sep] + t;
    if |p| == 0 {
      assert s[1..] == t;
    } else {
      assert s[1..] == p[1..] + [sep] + t;
      SplitCons(p[1..], t, sep);
      assert [p[0]] + p[1..] == p;
    }
  }

  lemma {:induction false} SplitJoin(parts: seq<string>, sep: char)
    requires |parts| > 0 && forall i :: 0 <= i < |parts| ==> sep !in parts[i]
    ensures Split(Join(parts, sep), sep) == parts
  {
    if |parts| == 1 {
      SplitOne(parts[0], sep);
    } else {
      SplitCons(parts[0], Join(parts[1..], sep), sep);
      SplitJoin(parts[1..], sep);
    }
  }

  lemma {:induction false} JoinSplit(s: string, sep: char)
    ensures Join(Split(s, sep), sep) == s
    ensures forall i :: 0 <= i < |Split(s, sep)| ==> sep !in Split(s, sep)[i]
    ensures forall i, c :: 0 <= i < |Split(s, sep)| && c in Split(s, sep)[i] ==> c in s
  {
    if |s| > 0 {
      var rest := Split(s[1..], sep);
      JoinSplit(s[1..], sep);
      if s[0] == sep {
        assert Join([""] + rest, sep) == "" + [sep] + Join(([""] + rest)[1..], sep);
        assert ([""] + rest)[1..] == rest;
      } else {
        var parts := [[s[0]] + rest[0]] + rest[1..];
        if |rest| > 1 {
          assert parts[1..] == rest[1..];
          assert Join(parts, sep) == [s[0]] + (rest[0] + [sep] + Join(rest[1..], sep));
        }
      }
    }
  }

  lemma RStripId(s: string)
    requires |s| == 0 || !IsSpace(s[|s| - 1])
    ensures RStrip(s) == s
  {}

  lemma LStripId(s: string)
    requires |s| == 0 || !IsSpace(s[0])
    ensures LStrip(s) == s
  {}

  lemma StripId(s: string)
    requires |s| == 0 || (!IsSpace(s[0]) && !IsSpace(s[|s| - 1]))
    ensures Strip(s) == s
  {}

  lemma {:induction false} RStripProps(s: string)
    ensures RStrip(s) <= s
    ensures |RStrip(s)| > 0 ==> !IsSpace(RStrip(s)[|RStrip(s)| - 1])
    ensures RStrip(RStrip(s)) == RStrip(s)
    ensures RStrip(s) == "" <==> Blank(s)
  {
    if |s| > 0 && IsSpace(s[|s| - 1]) {
      RStripProps(s[..|s| - 1]);
      assert s == s[..|s| - 1] + [s[|s| - 1]];
    }
  }

  lemma {:induction false} LStripProps(s: string)
    ensures |LStrip(s)| <= |s| && LStrip(s) == s[|s| - |LStrip(s)|..]
    ensures |LStrip(s)| > 0 ==> !IsSpace(LStrip(s)[0])
    ensures LStrip(s) == "" <==> Blank(s)
  {
    if |s| > 0 && IsSpace(s[0]) {
      LStripProps(s[1..]);
      assert s == [s[0]] + s[1..];
    }
  }

  lemma StripProps(s: string)
    ensures Strip(s) == "" <==> Blank(s)
    ensures |Strip(s)| > 0 ==> !IsSpace(Strip(s)[0]) && !IsSpace(Strip(s)[|Strip(s)| - 1])
    ensures Strip(Strip(s)) == Strip(s)
  {
    LStripProps(s);
    RStripProps(LStrip(s));
    if |Strip(s)| > 0 {
      assert Strip(s)[0] == LStrip(s)[0];
      StripId(Strip(s));
    }
  }

  /** A string whose strip is itself starts and ends with a non-space. */
  lemma StripFixpoint(s: string)
    requires Strip(s) == s && |s| > 0
    ensures !IsSpace(s[0]) && !IsSpace(s[|s| - 1])
  {
    StripProps(s);
  }

  /** A prefix before a non-blank string never gets stripped from the right. */
  lemma {:induction false} RStripPrefix(p: string, s: string)
    requires !Blank(s)
    ensures RStrip(p + s) == p + RStrip(s)
  {
    if IsSpace(s[|s| - 1]) {
      assert (p + s)[..|p + s| - 1] == p + s[..|s| - 1];
      RStripPrefix(p, s[..|s| - 1]);
    }
  }

  lemma {:induction false} LStripBlankPrefix(p: string, s: string)
    requires Blank(p)
    ensures LStrip(p + s) == LStrip(s)
  {
    if |p| > 0 {
      assert (p + s)[1..] == p[1..] + s;
      LStripBlankPrefix(p[1..], s);
    } else {
      assert p + s == s;
    }
  }

  lemma {:induction false} IndentOfSpaces(n: nat, s: string)
    requires |s| > 0 ==> s[0] != ' '
    ensures IndentOf(Spaces(n) + s) == n
    ensures (Spaces(n) + s)[n..] == s
  {
    if n > 0 {
      assert (Spaces(n) + s)[1..] == Spaces(n - 1) + s;
      IndentOfSpaces(n - 1, s);
    } else {
      assert Spaces(0) + s == s;
    }
  }

  lemma {:induction false} IndentOfAtLeast(n: nat, s: string)
    ensures IndentOf(Spaces(n) + s) == n + IndentOf(s)
  {
    if n > 0 {
      assert (Spaces(n) + s)[1..] == Spaces(n - 1) + s;
      IndentOfAtLeast(n - 1, s);
    } else {
      assert Spaces(0) + s == s;
    }
  }

  lemma {:induction false} FindIn(p: string, c: char, t: string)
    requires c !in p
    ensures Find(p + [c] + t, c) == |p|
  {
    if |p| > 0 {
      assert p[0] in p;
      assert (p + [c] + t)[1..] == p[1..] + [c] + t;
      FindIn(p[1..], c, t);
    }
  }

  // ---------- decimal integers ----------

  function DigitChar(d: nat): (c: char)
    requires d < 10
    ensures IsDigit(c)
  {
    '0' + (d as char)
  }

  function DigitValue(c: char): (d: nat)
    requires IsDigit(c)
    ensures d < 10
  {
    (c as int) - ('0' as int)
  }

  /** `str(n)` for n >= 0. */
  function NatToString(n: nat): (s: string)
    ensures AllDigits(s)
  {
    if n < 10 then [DigitChar(n)] else NatToString(n / 10) + [DigitChar(n % 10)]
  }

  /** `str(n)`. */
  function IntToString(n: int): (s: string)
    ensures |s| > 0
  {
    if n < 0 then "-" + NatToString(-n) else NatToString(n)
  }

  function ParseDigits(s: string): nat
    requires forall i :: 0 <= i < |s| ==> IsDigit(s[i])
  {
    if |s| == 0 then 0 else 10 * ParseDigits(s[..|s| - 1]) + DigitValue(s[|s| - 1])
  }

  lemma {:induction false} NatRoundTrip(n: nat)
    ensures ParseDigits(NatToString(n)) == n
  {
    if n < 10 {
      var s := NatToString(n);
      assert ParseDigits(s[..0]) == 0;
    } else {
      NatRoundTrip(n / 10);
      var s := NatToString(n);
      assert s[..|s| - 1] == NatToString(n / 10);
    }
  }
}
