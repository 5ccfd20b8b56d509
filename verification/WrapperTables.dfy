/**
 The options of the wrappers in omg_cli/deny.py, written out with no order among them, and where peeling
 stops, ends or raises behind any options a wrapper takes.
 */
module WrapperTables {
  import opened Options
  import opened Text
  import opened EnvSplit
  import opened WrapperPeel
  import opened WrapperLayers

  // ---------- the words ----------

  predicate Letter(c: char) { 'a' <= c <= 'z' || 'A' <= c <= 'Z' || c == '_' }

  predicate Digit(c: char) { c in {'0', '1', '2', '3', '4', '5', '6', '7', '8', '9'} }

  /** A name, an equals sign, and anything. */
  predicate Assigns(w: string) {
    exists n :: 0 < n < |w| && w[n] == '=' && Letter(w[0]) && forall i :: 0 <= i < n ==> Letter(w[i]) || Digit(w[i])
  }

  predicate DigitsBetween(w: string, a: int, b: int) {
    0 <= a < b <= |w| && forall i :: a <= i < b ==> Digit(w[i])
  }

  /** Digits, perhaps behind a sign, perhaps with a newline behind them. */
  predicate Number(w: string) {
    exists a, b :: 0 <= a < b <= |w| && DigitsBetween(w, a, b)
      && (a == 0 || (a == 1 && w[0] in {'+', '-'})) && (b == |w| || (b == |w| - 1 && w[b] == '\n'))
  }

  /** A dash and letters from `letters`, at least one. */
  predicate Cluster(w: string, letters: set<char>) {
    |w| >= 2 && w[0] == '-' && forall i :: 1 <= i < |w| ==> w[i] in letters
  }

  /** A text of that prefix with more behind it. */
  predicate Long(w: string, prefix: string) { |w| > |prefix| && w[..|prefix|] == prefix }

  // ---------- the tables ----------

  /** Options of one word. */
  predicate TakesFlag(name: string, w: string) {
    || (name == "env" && (w in {"-", "-i", "--ignore-environment"} || Long(w, "--unset=") || Long(w, "--chdir=")))
    || (name in {"env", "nohup", "time"} && Assigns(w))
    || (name == "command" && Cluster(w, {'p'}))
    || (name == "nice" && ((Long(w, "-n") && Number(w[2..])) || (Long(w, "--adjustment=") && Number(w[13..]))))
    || (name == "sudo" && Long(w, "--user="))
    || (name == "xargs" && Long(w, "--max-args="))
    || (name == "exec" && w in {"-c", "-l", "-cl", "-lc"})
  }

  /** Options of two words. */
  predicate TakesValue(name: string, w: string, value: string) {
    || (name == "env" && w in {"-u", "--unset", "-C", "--chdir"})
    || (name == "nice" && w in {"-n", "--adjustment"} && Number(value))
    || (name == "sudo" && w in {"-u", "--user"})
    || (name == "xargs" && w in {"-n", "--max-args"})
    || (name == "exec" && w == "-a")
  }

  /** `command` only looks a name up: `-v`, `-V`, alone or in a cluster with `p`. */
  predicate Discovers(name: string, w: string) {
    name == "command" && Cluster(w, {'p', 'v', 'V'}) && !Cluster(w, {'p'})
  }

  /** The next word of env is to be split. */
  predicate SplitsNext(name: string, w: string) {
    name == "env" && (w in {"-S", "--S", "--split-string"}
                      || (|w| >= 3 && Cluster(w[..|w| - 1], {'i', 'v'}) && w[|w| - 1] == 'S'))
  }

  /** The rest of the word is to be split, behind so many characters. */
  predicate SplitsSelf(name: string, w: string, front: nat) {
    name == "env" && ((front == 15 && Long(w, "--split-string=")) || (front == 2 && Long(w, "-S") && w[2] != '='))
  }

  /** A split without anything to split. */
  predicate SplitsNothing(name: string, w: string) {
    name == "env" && (w == "--split-string=" || (|w| >= 3 && w[..3] == "-S=") || (|w| >= 4 && w[..4] == "--S="))
  }

  lemma WordsMean(w: string)
    ensures IsAssignment(w) <==> Assigns(w)
    ensures IsAdjustment(w) <==> Number(w)
    ensures IsCombinedSplit(w) <==> |w| >= 3 && Cluster(w[..|w| - 1], {'i', 'v'}) && w[|w| - 1] == 'S'
  {
    if |w| >= 3 { assert forall i :: 1 <= i < |w| - 1 ==> w[..|w| - 1][i] == w[i]; }
    NumberMeans(w);
  }

  function Body(w: string): string { if |w| > 0 && w[|w| - 1] == '\n' then w[..|w| - 1] else w }

  function SignLength(body: string): nat { if |body| > 0 && body[0] in {'+', '-'} then 1 else 0 }

  lemma NumberMeans(w: string)
    ensures IsAdjustment(w) <==> Number(w)
  {
    var body, a := Body(w), SignLength(Body(w));
    assert forall i :: 0 <= i < |body[a..]| ==> body[a..][i] == w[a + i];
    assert IsAdjustment(w) == AllDigits(body[a..]);
    if IsAdjustment(w) {
      hide IsAdjustment;
      assert forall i :: a <= i < |body| ==> w[i] == body[a..][i - a];
      assert DigitsBetween(w, a, |body|);
    } else if Number(w) {
      NumberIsDigits(w);
    }
  }

  lemma NumberIsDigits(w: string)
    requires Number(w)
    ensures AllDigits(Body(w)[SignLength(Body(w))..])
  {
    var x, y :| 0 <= x < y <= |w| && DigitsBetween(w, x, y) && (x == 0 || (x == 1 && w[0] in {'+', '-'}))
      && (y == |w| || (y == |w| - 1 && w[y] == '\n'));
    assert Digit(w[x]) && Digit(w[y - 1]);
    assert y == |Body(w)| && x == SignLength(Body(w));
    SliceIsDigits(w, Body(w), x);
  }

  lemma SliceIsDigits(w: string, body: string, x: nat)
    requires x < |body| <= |w| && body == w[..|body|] && DigitsBetween(w, x, |body|)
    ensures AllDigits(body[x..])
  {
    assert forall i :: 0 <= i < |body[x..]| ==> body[x..][i] == w[x + i] && Digit(w[x + i]);
  }

  lemma KindMeans(w: string)
    ensures CommandKind(w) == Discovery <==> Discovers("command", w)
    ensures CommandKind(w) == Exec <==> Cluster(w, {'p'})
  {
    if CommandKind(w) != Unknown {
      assert forall i :: 1 <= i < |w| ==> w[i] in {'p', 'v', 'V'};
      if 'v' !in w && 'V' !in w { assert forall i :: 1 <= i < |w| ==> w[i] in w; }
    }
    if Cluster(w, {'p', 'v', 'V'}) { assert w[1] in {'p', 'v', 'V'} && !StartsWith(w, "--"); }
  }

  lemma LongMeans(w: string, prefix: string)
    ensures HasValue(w, prefix) <==> Long(w, prefix)
  {}

  // ---------- one word ----------

  /** None of the tables has the word. */
  predicate Untaken(name: string, words: seq<string>, i: nat)
    requires i < |words|
  {
    var w := words[i];
    && w != "--" && !TakesFlag(name, w) && !Discovers(name, w) && !SplitsNothing(name, w) && !SplitsNext(name, w)
    && !SplitsSelf(name, w, 2) && !SplitsSelf(name, w, 15)
    && (i + 1 < |words| ==> !TakesValue(name, w, words[i + 1]))
  }

  /** What the tables say of a word. */
  predicate ByTables(name: string, words: seq<string>, i: nat, v: Verdict)
    requires i < |words|
  {
    var w, more := words[i], i + 1 < |words|;
    match v
    case Pass(n) => (n == 1 && TakesFlag(name, w)) || (n == 2 && more && TakesValue(name, w, words[i + 1]))
    case End(n) => (n == 1 && w == "--") || (n == 0 && Untaken(name, words, i))
    case Nothing => Discovers(name, w)
    case OverBudget => SplitsNothing(name, w) || (SplitsNext(name, w) && !more)
    case Splice(raw, n) =>
      || (n == 2 && more && SplitsNext(name, w) && raw == words[i + 1])
      || (n == 1 && ((SplitsSelf(name, w, 2) && raw == w[2..]) || (SplitsSelf(name, w, 15) && raw == w[15..])))
  }

  /** The tables do not overlap, so their order is of no importance: each word has one verdict, the loop's. */
  lemma VerdictExactly(name: string, words: seq<string>, i: nat, v: Verdict)
    requires i < |words| && name in {"env", "command", "xargs", "nice", "nohup", "sudo", "time", "exec"}
    ensures ByTables(name, words, i, v) <==> v == VerdictOf(name, words, i)
  {
    hide Size, ByTables, EnvVerdict, OtherVerdict;
    if name == "env" {
      EnvExactly(words, i, v);
    } else if name in {"nohup", "time"} {
      PlainExactly(name, words, i, v);
    } else if name == "command" {
      CommandExactly(words, i, v);
    } else if name == "nice" {
      NiceExactly(words, i, v);
    } else {
      ShortExactly(name, words, i, v);
    }
  }

  lemma AssignsFirst(w: string)
    requires Assigns(w)
    ensures |w| > 0 && w[0] != '-'
  {}

  lemma PlainExactly(name: string, words: seq<string>, i: nat, v: Verdict)
    requires i < |words| && name in {"nohup", "time"}
    ensures ByTables(name, words, i, v) <==> v == VerdictOf(name, words, i)
  {
    hide Size, Assigns, IsAssignment, Cluster, Long;
    WordsMean(words[i]);
    if Assigns(words[i]) { AssignsFirst(words[i]); }
  }

  lemma CommandExactly(words: seq<string>, i: nat, v: Verdict)
    requires i < |words|
    ensures ByTables("command", words, i, v) <==> v == VerdictOf("command", words, i)
  {
    hide Size, Assigns, CommandKind, Long;
    KindMeans(words[i]);
    var w := words[i];
    if Cluster(w, {'p'}) || Cluster(w, {'p', 'v', 'V'}) { assert w[1] in {'p', 'v', 'V'}; }
  }

  lemma NiceExactly(words: seq<string>, i: nat, v: Verdict)
    requires i < |words|
    ensures ByTables("nice", words, i, v) <==> v == VerdictOf("nice", words, i)
  {
    hide Size, Number, IsAdjustment;
    var w := words[i];
    if |w| >= 2 { NumberMeans(w[2..]); }
    if |w| >= 13 { NumberMeans(w[13..]); }
    if i + 1 < |words| { NumberMeans(words[i + 1]); }
    NoNumber();
    if |w| == 2 { assert w[2..] == ""; }
    if |w| == 13 { assert w[13..] == ""; }
    if "-n" <= w { assert w[1] == w[..2][1] == 'n'; }
    if "--adjustment=" <= w { assert w[1] == w[..13][1] == '-'; }
  }

  lemma NoNumber()
    ensures !Number("")
  {}

  lemma ShortExactly(name: string, words: seq<string>, i: nat, v: Verdict)
    requires i < |words| && name in {"sudo", "xargs", "exec"}
    ensures ByTables(name, words, i, v) <==> v == VerdictOf(name, words, i)
  {
    hide Size, Assigns, Number, Cluster;
  }

  /** The five kinds of words of env besides the two dashes. */
  predicate Kind(w: string, kind: nat) {
    match kind
    case 0 => SplitsNothing("env", w)
    case 1 => SplitsNext("env", w)
    case 2 => SplitsSelf("env", w, 2)
    case 3 => SplitsSelf("env", w, 15)
    case 4 => TakesFlag("env", w)
    case 5 => w in {"-u", "--unset", "-C", "--chdir"}
    case _ => w == "--"
  }

  lemma KindsAreApart(w: string, a: nat, b: nat)
    requires a < b < 7 && Kind(w, a)
    ensures !Kind(w, b)
  {
    hide Assigns, Number, IsAssignment, IsCombinedSplit, Cluster, Long, StartsWith, HasValue;
    WordsMean(w);
    if Assigns(w) { AssignsFirst(w); }
    EnvWords(w);
  }

  lemma EnvExactly(words: seq<string>, i: nat, v: Verdict)
    requires i < |words|
    ensures ByTables("env", words, i, v) <==> v == VerdictOf("env", words, i)
  {
    hide Size, TakesFlag, SplitsSelf, SplitsNext, SplitsNothing;
    var w := words[i];
    forall a: nat, b: nat | a < b < 7 && Kind(w, a) ensures !Kind(w, b) { KindsAreApart(w, a, b); }
    EnvIsByTables(words, i);
    hide VerdictOf;
    assert Kind(w, 0) == SplitsNothing("env", w) && Kind(w, 1) == SplitsNext("env", w);
    assert Kind(w, 2) == SplitsSelf("env", w, 2) && Kind(w, 3) == SplitsSelf("env", w, 15);
    assert Kind(w, 4) == TakesFlag("env", w) && Kind(w, 6) == (w == "--");
    assert Kind(w, 5) == (w in {"-u", "--unset", "-C", "--chdir"});
  }

  lemma EnvIsByTables(words: seq<string>, i: nat)
    requires i < |words|
    ensures ByTables("env", words, i, VerdictOf("env", words, i))
  {
    hide Size, Assigns, Number, IsAssignment, IsCombinedSplit, Cluster, Long, StartsWith, HasValue;
    var w := words[i];
    WordsMean(w);
    if Assigns(w) { AssignsFirst(w); }
    EnvWords(w);
  }

  /** The words of env, by their first characters. */
  lemma EnvWords(w: string)
    ensures StartsWith(w, "-S=") <==> |w| >= 3 && w[..3] == "-S="
    ensures StartsWith(w, "--S=") <==> |w| >= 4 && w[..4] == "--S="
    ensures StartsWith(w, "-S=") ==> |w| >= 3 && w[0] == '-' && w[1] == 'S' && w[2] == '='
    ensures StartsWith(w, "--S=") ==> |w| >= 4 && w[0] == '-' && w[1] == '-' && w[2] == 'S'
    ensures StartsWith(w, "--split-string=") <==> w == "--split-string=" || Long(w, "--split-string=")
    ensures HasValue(w, "--split-string=") <==> Long(w, "--split-string=")
    ensures Long(w, "--split-string=") ==> |w| > 15
    ensures StartsWith(w, "--split-string=") ==> |w| >= 15 && w[0] == '-' && w[1] == '-' && w[2] == 's'
    ensures StartsWith(w, "-S") && |w| > 2 <==> Long(w, "-S")
    ensures Long(w, "-S") ==> |w| > 2 && w[0] == '-' && w[1] == 'S'
    ensures HasValue(w, "--unset=") <==> Long(w, "--unset=")
    ensures Long(w, "--unset=") ==> |w| > 8 && w[0] == '-' && w[1] == '-' && w[2] == 'u'
    ensures HasValue(w, "--chdir=") <==> Long(w, "--chdir=")
    ensures Long(w, "--chdir=") ==> |w| > 8 && w[0] == '-' && w[1] == '-' && w[2] == 'c'
    ensures IsCombinedSplit(w) ==> |w| >= 3 && w[0] == '-' && w[1] in {'i', 'v'}
  {
    if |w| >= 15 && w[..15] == "--split-string=" {
      assert w[0] == w[..15][0] && w[1] == w[..15][1] && w[2] == w[..15][2];
    }
    if Long(w, "--unset=") { assert w[0] == w[..8][0] && w[1] == w[..8][1] && w[2] == w[..8][2]; }
    if Long(w, "--chdir=") { assert w[0] == w[..8][0] && w[1] == w[..8][1] && w[2] == w[..8][2]; }
    if Long(w, "-S") { assert w[0] == w[..2][0] && w[1] == w[..2][1]; }
    if StartsWith(w, "-S=") { assert w[0] == w[..3][0] && w[1] == w[..3][1] && w[2] == w[..3][2]; }
    if StartsWith(w, "--S=") { assert w[0] == w[..4][0] && w[1] == w[..4][1] && w[2] == w[..4][2]; }
  }

  // ---------- behind the options ----------

  /** The options a wrapper takes, by the tables. */
  predicate Taken(name: string, o: Opt) {
    match o
    case Flag(w) => TakesFlag(name, w)
    case Valued(w, value) => TakesValue(name, w, value)
  }

  lemma TakenIsPassed(name: string, words: seq<string>, i: nat, o: Opt)
    requires name in {"env", "command", "xargs", "nice", "nohup", "sudo", "time", "exec"} && Taken(name, o)
    requires i + |OptWords(o)| <= |words| && words[i..i + |OptWords(o)|] == OptWords(o)
    ensures VerdictOf(name, words, i) == Pass(|OptWords(o)|)
  {
    hide VerdictOf, TakesFlag, TakesValue, Untaken, Size;
    var piece := words[i..i + |OptWords(o)|];
    assert words[i] == piece[0];
    if o.Valued? { assert words[i + 1] == piece[1]; }
    VerdictExactly(name, words, i, Pass(|OptWords(o)|));
  }

  lemma {:induction false} AllTakenArePassed(name: string, words: seq<string>, i: nat, opts: seq<Opt>, splitUsed: bool)
    requires name in {"env", "command", "xargs", "nice", "nohup", "sudo", "time", "exec"}
    requires i + |AllWords(opts)| <= |words| && words[i..i + |AllWords(opts)|] == AllWords(opts)
    requires forall k :: 0 <= k < |opts| ==> Taken(name, opts[k])
    ensures PeelFrom(name, words, i, splitUsed) == PeelFrom(name, words, i + |AllWords(opts)|, splitUsed)
    decreases |opts|
  {
    hide Taken, VerdictOf, OptWords, Size, SplitString;
    if |opts| > 0 {
      var a, b := OptWords(opts[0]), AllWords(opts[1..]);
      var piece := words[i..i + |a| + |b|];
      assert |a| > 0 by { SomeWords(opts[0]); }
      assert words[i..i + |a|] == piece[..|a|] == a;
      assert words[i + |a|..i + |a| + |b|] == piece[|a|..] == b;
      TakenIsPassed(name, words, i, opts[0]);
      AllTakenArePassed(name, words, i + |a|, opts[1..], splitUsed);
    }
  }

  /** No option of the wrapper stands first. */
  predicate NoOption(name: string, inner: seq<string>) {
    |inner| > 0 ==> !TakesFlag(name, inner[0]) && (|inner| > 1 ==> !TakesValue(name, inner[0], inner[1]))
  }

  /** A text to be split stands first, in the word itself or in the next one. */
  datatype Split = NoSplit | Of(raw: string, rest: seq<string>)

  function SplitOf(name: string, inner: seq<string>): Split {
    if |inner| > 1 && SplitsNext(name, inner[0]) then Of(inner[1], inner[2..])
    else if |inner| > 0 && SplitsSelf(name, inner[0], 2) then Of(inner[0][2..], inner[1..])
    else if |inner| > 0 && SplitsSelf(name, inner[0], 15) then Of(inner[0][15..], inner[1..])
    else NoSplit
  }

  /** What is left where no option and no split stands first. */
  function LeftOf(name: string, inner: seq<string>): Peel {
    if inner == [] then Rest([])
    else if inner[0] == "--" then Rest(inner[1..])
    else if Discovers(name, inner[0]) then Rest([])
    else if SplitsNothing(name, inner[0]) || SplitsNext(name, inner[0]) then Raised
    else Rest(inner)
  }

  lemma EndsHere(name: string, words: seq<string>, i: nat, splitUsed: bool)
    requires name in {"env", "command", "xargs", "nice", "nohup", "sudo", "time", "exec"} && i <= |words|
    requires NoOption(name, words[i..]) && SplitOf(name, words[i..]) == NoSplit
    ensures PeelFrom(name, words, i, splitUsed) == LeftOf(name, words[i..])
  {
    hide VerdictOf, TakesFlag, TakesValue, SplitsNext, SplitsSelf, SplitsNothing, Discovers, Size;
    var inner := words[i..];
    if i < |words| {
      assert inner[0] == words[i] && (i + 1 < |words| ==> inner[1] == words[i + 1]);
      var v := if inner[0] == "--" then End(1) else if Discovers(name, inner[0]) then Nothing
               else if SplitsNothing(name, inner[0]) || SplitsNext(name, inner[0]) then OverBudget else End(0);
      VerdictExactly(name, words, i, v);
      assert inner[1..] == words[i + 1..];
    }
  }

  lemma SplitsHere(words: seq<string>, i: nat, splitUsed: bool)
    requires i <= |words| && SplitOf("env", words[i..]).Of?
    ensures var s, p := SplitOf("env", words[i..]), PeelFrom("env", words, i, splitUsed);
      && (splitUsed || SplitString(s.raw).None? ==> p == Raised)
      && (!splitUsed && SplitString(s.raw).Some? ==>
            p == PeelFrom("env", words[..i] + SplitString(s.raw).value + s.rest, i, true))
  {
    hide VerdictOf, TakesFlag, TakesValue, SplitsNext, SplitsSelf, SplitsNothing, Discovers, Size, SplitString, Untaken;
    var inner, s := words[i..], SplitOf("env", words[i..]);
    assert inner[0] == words[i] && (i + 1 < |words| ==> inner[1] == words[i + 1]);
    var width := if |inner| > 1 && SplitsNext("env", inner[0]) then 2 else 1;
    VerdictExactly("env", words, i, Splice(s.raw, width));
    assert s.rest == words[i + width..];
  }

  /** Peeling gets behind the options. */
  lemma BehindOptions(word: string, opts: seq<Opt>, inner: seq<string>)
    requires Basename(word) in {"env", "command", "xargs", "nice", "nohup", "sudo", "time", "exec"}
    requires forall k :: 0 <= k < |opts| ==> Taken(Basename(word), opts[k])
    ensures var words, n := [word] + AllWords(opts) + inner, 1 + |AllWords(opts)|;
      words[n..] == inner && PeelOne(words) == PeelFrom(Basename(word), words, n, false)
  {
    hide Basename, Taken, Size, PeelFrom;
    var words, n := [word] + AllWords(opts) + inner, 1 + |AllWords(opts)|;
    assert words[0] == word && words[1..n] == AllWords(opts);
    AllTakenArePassed(Basename(word), words, 1, opts, false);
  }

  /** Behind a split the options go on, but no second split is allowed. */
  lemma BehindSplit(front: seq<string>, more: seq<Opt>, behind: seq<string>)
    requires forall k :: 0 <= k < |more| ==> Taken("env", more[k])
    requires NoOption("env", behind)
    ensures PeelFrom("env", front + (AllWords(more) + behind), |front|, true)
         == if SplitOf("env", behind).Of? then Raised else LeftOf("env", behind)
  {
    hide Taken, NoOption, SplitOf, LeftOf, PeelFrom;
    var spliced, m := front + (AllWords(more) + behind), |front| + |AllWords(more)|;
    assert spliced[|front|..m] == AllWords(more) && spliced[m..] == behind;
    AllTakenArePassed("env", spliced, |front|, more, true);
    if SplitOf("env", behind).Of? { SplitsHere(spliced, m, true); } else { EndsHere("env", spliced, m, true); }
  }

  /** One wrapper: behind any options it takes, the peel is decided by the word that follows. */
  lemma PeelExactly(word: string, opts: seq<Opt>, inner: seq<string>)
    requires Basename(word) in {"env", "command", "xargs", "nice", "nohup", "sudo", "time", "exec"}
    requires forall k :: 0 <= k < |opts| ==> Taken(Basename(word), opts[k])
    requires NoOption(Basename(word), inner) && SplitOf(Basename(word), inner) == NoSplit
    ensures PeelOne([word] + AllWords(opts) + inner) == LeftOf(Basename(word), inner)
  {
    hide Basename, Taken, NoOption, SplitOf, LeftOf, PeelFrom, PeelOne;
    BehindOptions(word, opts, inner);
    EndsHere(Basename(word), [word] + AllWords(opts) + inner, 1 + |AllWords(opts)|, false);
  }

  /**
   `env` with a text to split: peeling raises where the text cannot be split.  Otherwise its words stand in its
   place, the options among them are taken, and a second split raises.
   */
  lemma PeelSplitExactly(word: string, opts: seq<Opt>, inner: seq<string>, more: seq<Opt>, behind: seq<string>)
    requires Basename(word) == "env" && SplitOf("env", inner).Of?
    requires forall k :: 0 <= k < |opts| ==> Taken("env", opts[k])
    requires forall k :: 0 <= k < |more| ==> Taken("env", more[k])
    requires NoOption("env", behind)
    ensures var s, p := SplitOf("env", inner), PeelOne([word] + AllWords(opts) + inner);
      && (SplitString(s.raw).None? ==> p == Raised)
      && (SplitString(s.raw).Some? && SplitString(s.raw).value + s.rest == AllWords(more) + behind ==>
            p == if SplitOf("env", behind).Of? then Raised else LeftOf("env", behind))
  {
    hide Basename, Taken, NoOption, SplitOf, LeftOf, PeelFrom, PeelOne, SplitString;
    var front, s := [word] + AllWords(opts), SplitOf("env", inner);
    BehindOptions(word, opts, inner);
    SplitsHere(front + inner, |front|, false);
    if SplitString(s.raw).Some? && SplitString(s.raw).value + s.rest == AllWords(more) + behind {
      assert (front + inner)[..|front|] == front;
      assert front + SplitString(s.raw).value + s.rest == front + (AllWords(more) + behind);
      BehindSplit(front, more, behind);
    }
  }

  /** Only these eight names are wrappers, whatever path and case they are called by. */
  lemma WrappersExactly(words: seq<string>)
    ensures PeelOne(words) != NoWrapper <==>
      (|words| > 0 && Basename(words[0]) in {"env", "command", "xargs", "nice", "nohup", "sudo", "time", "exec"})
  {
    hide Basename, VerdictOf, Size;
    if |words| > 0 { NeverNoWrapper(Basename(words[0]), words, 1, false); }
  }

  lemma {:induction false} NeverNoWrapper(name: string, words: seq<string>, i: nat, splitUsed: bool)
    requires i <= |words|
    ensures PeelFrom(name, words, i, splitUsed) != NoWrapper
    decreases if splitUsed then 0 else 1, |words| - i
  {
    hide EnvVerdict, OtherVerdict, Size, SplitString;
    if i < |words| {
      var v := VerdictOf(name, words, i);
      if v.Pass? { NeverNoWrapper(name, words, i + v.width, splitUsed); }
      if v.Splice? && !splitUsed && SplitString(v.raw).Some? {
        NeverNoWrapper(name, words[..i] + SplitString(v.raw).value + words[i + v.width..], i, true);
      }
    }
  }

  /** The base name: what follows the last slash, its capitals A to Z made small. */
  lemma {:induction false} BasenameExactly(path: string, name: string)
    requires '/' !in name
    ensures Basename(path + "/" + name) == Basename(name) && |Basename(name)| == |name|
    ensures forall i :: 0 <= i < |name| ==>
      Basename(name)[i] == if 'A' <= name[i] <= 'Z' then name[i] - 'A' + 'a' else name[i]
    decreases |path|
  {
    var all := path + "/" + name;
    assert all[|path|] == '/';
    var k := Find(all, '/');
    if k < |path| {
      assert all[k + 1..] == path[k + 1..] + "/" + name;
      BasenameExactly(path[k + 1..], name);
    } else {
      assert forall j :: 0 <= j < k ==> all[j] == all[..k][j] && all[j] != '/';
      assert all[k + 1..] == name;
    }
  }

  /** Where no wrapper is left, the words with a dash in front go, and nothing else does. */
  lemma {:induction false} ResidueExactly(dashed: seq<string>, rest: seq<string>)
    requires forall i :: 0 <= i < |dashed| ==> |dashed[i]| > 0 && dashed[i][0] == '-'
    requires rest == [] || rest[0] == "" || rest[0][0] != '-'
    ensures AfterResidue(dashed + rest) == rest
    ensures PeelOne(dashed + rest) == NoWrapper ==> PeelChain(dashed + rest) == Some(rest)
  {
    hide PeelOne, Size;
    if |dashed| == 0 {
      assert dashed + rest == rest;
    } else {
      ResidueStep(dashed, rest);
    }
  }

  lemma {:induction false} ResidueStep(dashed: seq<string>, rest: seq<string>)
    requires |dashed| > 0 && forall i :: 0 <= i < |dashed| ==> |dashed[i]| > 0 && dashed[i][0] == '-'
    requires rest == [] || rest[0] == "" || rest[0][0] != '-'
    ensures AfterResidue(dashed + rest) == rest
  {
    assert (dashed + rest)[1..] == dashed[1..] + rest;
    if |dashed| == 1 {
      assert dashed[1..] + rest == rest;
    } else {
      ResidueStep(dashed[1..], rest);
    }
  }
}
