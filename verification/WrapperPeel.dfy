/**
 Wrapper peeling in omg_cli/deny.py: `env`, `sudo`, `nice` and the others with their options, and
 `env -S`, which puts new words in.  Digits and word characters are those of ASCII.
 */
module WrapperPeel {
  import opened Options
  import opened Text
  import opened EnvSplit

  const WRAPPER_NAMES := {"env", "command", "xargs", "nice", "nohup", "sudo", "time", "exec"}

  // ---------- words ----------

  function LowerChar(c: char): char { if 'A' <= c <= 'Z' then 'a' + (c - 'A') else c }

  function Lower(s: string): string { seq(|s|, i requires 0 <= i < |s| => LowerChar(s[i])) }

  function AfterLastSlash(s: string): string {
    if '/' !in s then s else AfterLastSlash(s[Find(s, '/') + 1..])
  }

  /** `_token_basename` */
  function Basename(word: string): string { Lower(AfterLastSlash(word)) }

  predicate IsOption(word: string) { |word| > 0 && word[0] == '-' }

  predicate WordChar(c: char) { 'A' <= c <= 'Z' || 'a' <= c <= 'z' || c == '_' || IsDigit(c) }

  /** `^[A-Za-z_][\w]*=` */
  predicate IsAssignment(word: string) {
    && |word| > 0 && WordChar(word[0]) && !IsDigit(word[0])
    && exists n :: 0 < n < |word| && word[n] == '=' && forall i :: 0 <= i < n ==> WordChar(word[i])
  }

  /** `^[+-]?\d+$`, where the dollar also allows one newline at the end. */
  predicate IsAdjustment(word: string) {
    var body := if |word| > 0 && word[|word| - 1] == '\n' then word[..|word| - 1] else word;
    var digits := if |body| > 0 && body[0] in {'+', '-'} then body[1..] else body;
    AllDigits(digits)
  }

  /** `^-[iv]+S$` on the whole word */
  predicate IsCombinedSplit(word: string) {
    |word| >= 3 && word[0] == '-' && word[|word| - 1] == 'S'
    && forall i :: 1 <= i < |word| - 1 ==> word[i] in {'i', 'v'}
  }

  predicate HasValue(word: string, prefix: string) { StartsWith(word, prefix) && |word| > |prefix| }

  datatype CommandOption = Discovery | Exec | Unknown

  /** `_command_option_kind` */
  function CommandKind(word: string): CommandOption {
    if |word| < 2 || word[0] != '-' || StartsWith(word, "--") then Unknown
    else if exists i :: 1 <= i < |word| && word[i] !in {'p', 'v', 'V'} then Unknown
    else if 'v' in word || 'V' in word then Discovery else Exec
  }

  // ---------- one option ----------

  /** What the loop does with the word at its index. */
  datatype Verdict =
    | Pass(width: nat)            // step over it and perhaps its value
    | End(width: nat)             // leave the loop behind that many words
    | Nothing                     // discovery: no wrapped command
    | OverBudget                  // raise
    | Splice(raw: string, width: nat)

  function EnvVerdict(words: seq<string>, index: nat): Verdict
    requires index < |words|
  {
    var token, more := words[index], index + 1 < |words|;
    if StartsWith(token, "-S=") || StartsWith(token, "--S=") then OverBudget
    else if token in {"-S", "--S", "--split-string"} then (if more then Splice(words[index + 1], 2) else OverBudget)
    else if StartsWith(token, "--split-string=") then
      (if HasValue(token, "--split-string=") then Splice(token[15..], 1) else OverBudget)
    else if IsCombinedSplit(token) then (if more then Splice(words[index + 1], 2) else OverBudget)
    else if StartsWith(token, "-S") && |token| > 2 && token[2] != '=' then Splice(token[2..], 1)
    else if token in {"-", "-i", "--ignore-environment"} then Pass(1)
    else if token in {"-u", "--unset", "-C", "--chdir"} then (if more then Pass(2) else End(0))
    else if HasValue(token, "--unset=") || HasValue(token, "--chdir=") || IsAssignment(token) then Pass(1)
    else End(0)
  }

  function OtherVerdict(name: string, words: seq<string>, index: nat): Verdict
    requires index < |words|
  {
    var token, more := words[index], index + 1 < |words|;
    if name == "command" then
      (match CommandKind(token) case Discovery => Nothing case Exec => Pass(1) case Unknown => End(0))
    else if name == "nice" then
      if StartsWith(token, "-n") && IsAdjustment(token[2..]) then Pass(1)
      else if token in {"-n", "--adjustment"} then (if more && IsAdjustment(words[index + 1]) then Pass(2) else End(0))
      else if StartsWith(token, "--adjustment=") && IsAdjustment(token[13..]) then Pass(1)
      else End(0)
    else if name == "sudo" then
      if token in {"-u", "--user"} then (if more then Pass(2) else End(0))
      else if HasValue(token, "--user=") then Pass(1) else End(0)
    else if name == "xargs" then
      if token in {"-n", "--max-args"} then (if more then Pass(2) else End(0))
      else if HasValue(token, "--max-args=") then Pass(1) else End(0)
    else if name == "exec" then
      if token == "-a" then (if more then Pass(2) else End(0))
      else if token in {"-c", "-l", "-cl", "-lc"} then Pass(1) else End(0)
    else if IsAssignment(token) then Pass(1) else End(0)
  }

  function VerdictOf(name: string, words: seq<string>, index: nat): (v: Verdict)
    requires index < |words|
    ensures v.Pass? ==> 0 < v.width && index + v.width <= |words|
    ensures v.End? ==> index + v.width <= |words|
    ensures v.Splice? ==> 0 < v.width && index + v.width <= |words|
    ensures v.Splice? ==> |v.raw| + 1 <= Size(words[index..index + v.width])
  {
    SizeOfPieces(words, index);
    if words[index] == "--" then End(1)
    else if name == "env" then EnvVerdict(words, index)
    else OtherVerdict(name, words, index)
  }

  lemma SizeOfPieces(words: seq<string>, index: nat)
    requires index < |words|
    ensures Size(words[index..index + 1]) == |words[index]| + 1
    ensures index + 1 < |words| ==> Size(words[index..index + 2]) == |words[index]| + |words[index + 1]| + 2
  {
    SizeOne(words[index]);
    assert words[index..index + 1] == [words[index]];
    if index + 1 < |words| {
      SizeOne(words[index + 1]);
      SizeAppend([words[index]], [words[index + 1]]);
      assert words[index..index + 2] == [words[index]] + [words[index + 1]];
    }
  }

  lemma SizeOne(w: string)
    ensures Size([w]) == |w| + 1
  {
    assert [w][..0] == [];
  }

  // ---------- one wrapper ----------

  datatype Peel = NoWrapper | Raised | Rest(words: seq<string>)

  function PeelFrom(name: string, words: seq<string>, index: nat, splitUsed: bool): Peel
    requires index <= |words|
    decreases if splitUsed then 0 else 1, |words| - index
  {
    if index == |words| then Rest([])
    else
      match VerdictOf(name, words, index)
      case Pass(width) => PeelFrom(name, words, index + width, splitUsed)
      case End(width) => Rest(words[index + width..])
      case Nothing => Rest([])
      case OverBudget => Raised
      case Splice(raw, width) =>
        if splitUsed then Raised
        else
          match SplitString(raw)
          case None => Raised
          case Some(tokens) => PeelFrom(name, words[..index] + tokens + words[index + width..], index, true)
  }

  /** `_peel_one_wrapper` */
  function PeelOne(words: seq<string>): Peel {
    if |words| == 0 || Basename(words[0]) !in WRAPPER_NAMES then NoWrapper
    else PeelFrom(Basename(words[0]), words, 1, false)
  }

  lemma SizeSplit(words: seq<string>, k: nat)
    requires k <= |words|
    ensures Size(words) == Size(words[..k]) + Size(words[k..])
  {
    assert words == words[..k] + words[k..];
    SizeAppend(words[..k], words[k..]);
  }

  lemma SizeWindow(words: seq<string>, index: nat, width: nat)
    requires index + width <= |words|
    ensures Size(words[index..]) == Size(words[index..index + width]) + Size(words[index + width..])
  {
    SizeSplit(words[index..], width);
    assert words[index..][..width] == words[index..index + width] && words[index..][width..] == words[index + width..];
  }

  lemma {:induction false} PeelFromShrinks(name: string, words: seq<string>, index: nat, splitUsed: bool)
    requires index <= |words|
    ensures var p := PeelFrom(name, words, index, splitUsed); p.Rest? ==> Size(p.words) <= Size(words[index..])
    decreases if splitUsed then 0 else 1, |words| - index
  {
    hide Size, EnvVerdict, OtherVerdict, SplitString;
    if index < |words| {
      var v := VerdictOf(name, words, index);
      if v.Pass? {
        SizeWindow(words, index, v.width);
        PeelFromShrinks(name, words, index + v.width, splitUsed);
      } else if v.End? {
        SizeWindow(words, index, v.width);
      } else if v.Nothing? {
        assert Size([]) == 0 by { SizeNone(); }
      } else if v.Splice? && !splitUsed && SplitString(v.raw).Some? {
        var tokens := SplitString(v.raw).value;
        SplitIsBounded(v.raw);
        SizeWindow(words, index, v.width);
        var spliced := words[..index] + tokens + words[index + v.width..];
        assert spliced[index..] == tokens + words[index + v.width..];
        SizeAppend(tokens, words[index + v.width..]);
        PeelFromShrinks(name, spliced, index, true);
      }
    } else {
      assert Size([]) == 0 by { SizeNone(); }
    }
  }

  lemma SizeNone()
    ensures Size([]) == 0
  {}

  /** Every peeled wrapper lowers the measure, although a split can put up to 16 words in. */
  lemma PeelShrinks(words: seq<string>)
    ensures PeelOne(words).Rest? ==> Size(PeelOne(words).words) < Size(words)
  {
    hide Size, PeelFrom, Basename;
    if PeelOne(words).Rest? {
      PeelFromShrinks(Basename(words[0]), words, 1, false);
      SizeWindow(words, 0, 1);
      assert words[0..] == words;
      SizeOfPieces(words, 0);
    }
  }

  lemma {:induction false} PeelFromIsSuffix(name: string, words: seq<string>, index: nat, splitUsed: bool)
    requires index <= |words| && name != "env"
    ensures var p := PeelFrom(name, words, index, splitUsed);
      && !p.Raised?
      && (p.Rest? ==> exists k :: index <= k <= |words| && p.words == words[k..])
    decreases |words| - index
  {
    hide CommandKind, IsAdjustment, IsAssignment, HasValue;
    if index < |words| {
      var v := VerdictOf(name, words, index);
      if v.Pass? { PeelFromIsSuffix(name, words, index + v.width, splitUsed); }
      if v.Nothing? { assert words[|words|..] == []; }
    } else {
      assert words[|words|..] == [];
    }
  }

  /** Wrappers other than env never raise, and what they leave is the end of their own words. */
  lemma OtherWrappersLeaveASuffix(words: seq<string>)
    requires |words| > 0 && Basename(words[0]) != "env"
    ensures !PeelOne(words).Raised?
    ensures PeelOne(words).Rest? ==> exists k :: 1 <= k <= |words| && PeelOne(words).words == words[k..]
  {
    hide PeelFrom, Basename;
    if PeelOne(words).Rest? || PeelOne(words).Raised? { PeelFromIsSuffix(Basename(words[0]), words, 1, false); }
  }

  // ---------- the chain ----------

  /** `_after_wrapper_option_residue` */
  function AfterResidue(words: seq<string>): seq<string> {
    if |words| > 0 && IsOption(words[0]) then AfterResidue(words[1..]) else words
  }

  /** `_peel_wrapper_chain`; None where a peel raises. */
  function PeelChain(words: seq<string>): Option<seq<string>>
    decreases Size(words)
  {
    PeelShrinks(words);
    match PeelOne(words)
    case NoWrapper => Some(AfterResidue(words))
    case Raised => None
    case Rest(rest) => PeelChain(rest)
  }

  lemma {:induction false} ResidueFacts(words: seq<string>)
    ensures Size(AfterResidue(words)) <= Size(words)
    ensures (AfterResidue(words) != [] ==> !IsOption(AfterResidue(words)[0]))
    decreases |words|
  {
    hide Size;
    if |words| > 0 && IsOption(words[0]) {
      SizeWindow(words, 0, 1);
      assert words[0..] == words;
      ResidueFacts(words[1..]);
    }
  }

  /** The chain ends, with no more than it began with, and never on a leftover option. */
  lemma {:induction false} ChainEndsOnAHead(words: seq<string>)
    ensures var r := PeelChain(words);
      r.Some? ==> Size(r.value) <= Size(words) && (r.value != [] ==> !IsOption(r.value[0]))
    decreases Size(words)
  {
    hide Size, PeelOne, AfterResidue;
    PeelShrinks(words);
    match PeelOne(words)
    case NoWrapper => ResidueFacts(words);
    case Raised =>
    case Rest(rest) => ChainEndsOnAHead(rest);
  }

  // ---------- the code ----------

  /** `_peel_one_wrapper` as the loop of the code. */
  method PeelOneWrapper(input: seq<string>) returns (result: Peel)
    ensures result == PeelOne(input)
  {
    hide EnvVerdict, OtherVerdict, Basename, Size, SplitString;
    var words := input;
    if |words| == 0 { return NoWrapper; }
    var name := Basename(words[0]);
    if name !in WRAPPER_NAMES { return NoWrapper; }
    var index, splitUsed := 1, false;
    while index < |words|
      invariant index <= |words| && PeelFrom(name, words, index, splitUsed) == PeelOne(input)
      decreases if splitUsed then 0 else 1, |words| - index
    {
      var verdict := Classify(name, words, index);
      match verdict
      case Pass(width) =>
        index := index + width;
      case End(width) =>
        return Rest(words[index + width..]);
      case Nothing =>
        return Rest([]);
      case OverBudget =>
        return Raised;
      case Splice(raw, width) =>
        if splitUsed { return Raised; }
        splitUsed := true;
        var tokens := ParseEnvSplitString(raw);
        if tokens.None? { return Raised; }
        words := words[..index] + tokens.value + words[index + width..];
    }
    assert words[|words|..] == [];
    return Rest([]);
  }

  /** The branches of the loop, in the order of the code. */
  method Classify(name: string, words: seq<string>, index: nat) returns (v: Verdict)
    requires index < |words|
    ensures v == VerdictOf(name, words, index)
  {
    hide Size, IsAssignment, IsAdjustment, IsCombinedSplit, CommandKind;
    var token, more := words[index], index + 1 < |words|;
    if token == "--" { return End(1); }
    if name == "env" {
      v := ClassifyEnv(words, index);
      return;
    }
    if name == "command" {
      var kind := CommandKind(token);
      return if kind == Discovery then Nothing else if kind == Exec then Pass(1) else End(0);
    }
    if name == "nice" {
      if StartsWith(token, "-n") && IsAdjustment(token[2..]) { return Pass(1); }
      if token in {"-n", "--adjustment"} {
        return if more && IsAdjustment(words[index + 1]) then Pass(2) else End(0);
      }
      return if StartsWith(token, "--adjustment=") && IsAdjustment(token[13..]) then Pass(1) else End(0);
    }
    if name == "sudo" {
      if token in {"-u", "--user"} { return if more then Pass(2) else End(0); }
      return if HasValue(token, "--user=") then Pass(1) else End(0);
    }
    if name == "xargs" {
      if token in {"-n", "--max-args"} { return if more then Pass(2) else End(0); }
      return if HasValue(token, "--max-args=") then Pass(1) else End(0);
    }
    if name == "exec" {
      if token == "-a" { return if more then Pass(2) else End(0); }
      return if token in {"-c", "-l", "-cl", "-lc"} then Pass(1) else End(0);
    }
    return if IsAssignment(token) then Pass(1) else End(0);
  }

  method ClassifyEnv(words: seq<string>, index: nat) returns (v: Verdict)
    requires index < |words|
    ensures v == EnvVerdict(words, index)
  {
    hide IsAssignment, IsCombinedSplit;
    var token, more := words[index], index + 1 < |words|;
    if StartsWith(token, "-S=") || StartsWith(token, "--S=") { return OverBudget; }
    if token in {"-S", "--S", "--split-string"} { return if more then Splice(words[index + 1], 2) else OverBudget; }
    if StartsWith(token, "--split-string=") {
      return if |token| > 15 then Splice(token[15..], 1) else OverBudget;
    }
    if IsCombinedSplit(token) { return if more then Splice(words[index + 1], 2) else OverBudget; }
    if StartsWith(token, "-S") && |token| > 2 && token[2] != '=' { return Splice(token[2..], 1); }
    if token in {"-", "-i", "--ignore-environment"} { return Pass(1); }
    if token in {"-u", "--unset", "-C", "--chdir"} { return if more then Pass(2) else End(0); }
    if HasValue(token, "--unset=") || HasValue(token, "--chdir=") || IsAssignment(token) { return Pass(1); }
    return End(0);
  }

  /** `_peel_wrapper_chain` with the residue loop behind it. */
  method PeelWrapperChain(words: seq<string>) returns (result: Option<seq<string>>)
    ensures result == PeelChain(words)
  {
    hide PeelOne, Size;
    var remaining := words;
    while |remaining| > 0
      invariant PeelChain(remaining) == PeelChain(words)
      decreases Size(remaining)
    {
      PeelShrinks(remaining);
      var peeled := PeelOneWrapper(remaining);
      if peeled.NoWrapper? { break; }
      if peeled.Raised? { return None; }
      remaining := peeled.words;
    }
    assert PeelOne(remaining) == NoWrapper by { if |remaining| == 0 { NothingToPeel(); } }
    ghost var stopped := remaining;
    var index := 0;
    while index < |remaining| && IsOption(remaining[index])
      invariant index <= |remaining| && AfterResidue(remaining[index..]) == AfterResidue(stopped)
      invariant remaining == stopped
    {
      index := index + 1;
    }
    return Some(remaining[index..]);
  }

  lemma NothingToPeel()
    ensures PeelOne([]) == NoWrapper
  {}
}
