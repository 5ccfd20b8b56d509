/** Commands built up from wrappers with their options, and that peeling takes exactly those off again. */
module WrapperLayers {
  import opened Options
  import opened Text
  import opened EnvSplit
  import opened WrapperPeel

  datatype Opt = Flag(word: string) | Valued(word: string, value: string)

  /** The options each wrapper takes. */
  predicate Takes(name: string, o: Opt) {
    match o
    case Flag(w) =>
      if name == "env" then w in {"-", "-i", "--ignore-environment"} || HasValue(w, "--unset=")
          || HasValue(w, "--chdir=") || IsAssignment(w)
      else if name == "command" then CommandKind(w) == Exec
      else if name == "nice" then
        || (StartsWith(w, "-n") && IsAdjustment(w[2..]))
        || (StartsWith(w, "--adjustment=") && IsAdjustment(w[13..]))
      else if name == "sudo" then HasValue(w, "--user=")
      else if name == "xargs" then HasValue(w, "--max-args=")
      else if name == "exec" then w in {"-c", "-l", "-cl", "-lc"}
      else IsAssignment(w)
    case Valued(w, value) =>
      if name == "env" then w in {"-u", "--unset", "-C", "--chdir"}
      else if name == "nice" then w in {"-n", "--adjustment"} && IsAdjustment(value)
      else if name == "sudo" then w in {"-u", "--user"}
      else if name == "xargs" then w in {"-n", "--max-args"}
      else name == "exec" && w == "-a"
  }

  function OptWords(o: Opt): seq<string> {
    match o
    case Flag(w) => [w]
    case Valued(w, value) => [w, value]
  }

  function AllWords(opts: seq<Opt>): seq<string> {
    if |opts| == 0 then [] else OptWords(opts[0]) + AllWords(opts[1..])
  }

  /** One wrapper as it is called, perhaps with `--` behind its options. */
  datatype Layer = Layer(word: string, opts: seq<Opt>, dashes: bool)

  predicate LayerOk(l: Layer) {
    Basename(l.word) in WRAPPER_NAMES && forall i :: 0 <= i < |l.opts| ==> Takes(Basename(l.word), l.opts[i])
  }

  /** A word no wrapper takes for an option. */
  predicate PlainHead(word: string) { !IsOption(word) && !IsAssignment(word) }

  function LayerWords(l: Layer): seq<string> {
    [l.word] + AllWords(l.opts) + (if l.dashes then ["--"] else [])
  }

  function Layered(layers: seq<Layer>, command: seq<string>): seq<string> {
    if |layers| == 0 then command else LayerWords(layers[0]) + Layered(layers[1..], command)
  }

  /** Where no `--` stands before it, the next word must be plain. */
  predicate LayersOk(layers: seq<Layer>, command: seq<string>) {
    if |layers| == 0 then |command| > 0 && !IsOption(command[0]) && Basename(command[0]) !in WRAPPER_NAMES
    else
      && LayerOk(layers[0]) && LayersOk(layers[1..], command)
      && (layers[0].dashes || PlainHead(Layered(layers[1..], command)[0]))
  }

  // ---------- one option, one head ----------

  lemma OptionIsPassed(name: string, words: seq<string>, index: nat, o: Opt)
    requires Takes(name, o) && index + |OptWords(o)| <= |words| && words[index..index + |OptWords(o)|] == OptWords(o)
    ensures VerdictOf(name, words, index) == Pass(|OptWords(o)|)
  {
    hide Size, IsAssignment, IsAdjustment, IsCombinedSplit, CommandKind;
    var piece := words[index..index + |OptWords(o)|];
    assert words[index] == piece[0];
    if o.Valued? {
      assert words[index + 1] == piece[1];
      ValuedWords(name, o);
    } else {
      FlagWords(name, o.word);
    }
  }

  /** What a flag is not. */
  lemma FlagWords(name: string, w: string)
    requires Takes(name, Flag(w))
    ensures w != "--"
    ensures name == "env" ==> NoSplit(w) && w !in {"-u", "--unset", "-C", "--chdir"}
    ensures name == "nice" ==> w !in {"-n", "--adjustment"}
    ensures name == "sudo" ==> w !in {"-u", "--user"}
    ensures name == "xargs" ==> w !in {"-n", "--max-args"}
    ensures name == "exec" ==> w != "-a"
  {
    if name == "env" {
      hide NoSplit;
      EnvFlagWords(w);
    }
  }

  lemma EnvFlagWords(w: string)
    requires Takes("env", Flag(w))
    ensures w != "--" && NoSplit(w) && w !in {"-u", "--unset", "-C", "--chdir"}
  {
    hide IsAdjustment, CommandKind, IsAssignment, NoSplit, StartsWith;
    if IsAssignment(w) {
      NoDash(w);
    } else if HasValue(w, "--unset=") {
      LongFlag(w, "--unset=");
    } else if HasValue(w, "--chdir=") {
      LongFlag(w, "--chdir=");
    } else {
      ShortFlag(w);
    }
  }

  lemma LongFlag(w: string, prefix: string)
    requires HasValue(w, prefix) && |prefix| == 8 && prefix[0] == '-' && prefix[1] == '-' && prefix[2] !in {'S', 's'}
    ensures NoSplit(w) && |w| > 8
  {
    assert w[..8] == prefix && w[1] == '-' && w[2] == prefix[2];
  }

  lemma NoDash(w: string)
    requires IsAssignment(w)
    ensures NoSplit(w) && !IsOption(w) && w != ""
  {}

  lemma ShortFlag(w: string)
    requires w in {"-", "-i", "--ignore-environment"}
    ensures NoSplit(w)
  {
    assert |w| > 1 ==> w[1] in {'i', '-'};
    assert |w| > 2 ==> w[2] == 'i';
  }

  /** Not one of the spellings of `-S`. */
  predicate NoSplit(w: string) {
    !StartsWith(w, "-S") && !StartsWith(w, "--S") && !StartsWith(w, "--split-string") && !IsCombinedSplit(w)
  }

  lemma ValuedWords(name: string, o: Opt)
    requires o.Valued? && Takes(name, o)
    ensures name == "nice" ==> !(StartsWith(o.word, "-n") && IsAdjustment(o.word[2..]))
    ensures name == "env" ==> NoSplit(o.word) && o.word !in {"-", "-i", "--ignore-environment"}
    ensures o.word != "--"
  {
    if name == "env" {
      assert o.word[1] in {'u', 'C', '-'};
      assert |o.word| > 2 ==> o.word[2] in {'u', 'c'};
    }
  }

  lemma HeadStops(name: string, words: seq<string>, index: nat)
    requires index < |words| && PlainHead(words[index])
    ensures VerdictOf(name, words, index) == End(0)
  {
    hide Size, IsAssignment, IsAdjustment;
  }

  lemma {:induction false} OptionsArePassed(name: string, words: seq<string>, index: nat, opts: seq<Opt>,
                                            splitUsed: bool)
    requires index + |AllWords(opts)| <= |words| && words[index..index + |AllWords(opts)|] == AllWords(opts)
    requires forall i :: 0 <= i < |opts| ==> Takes(name, opts[i])
    ensures PeelFrom(name, words, index, splitUsed) == PeelFrom(name, words, index + |AllWords(opts)|, splitUsed)
    decreases |opts|
  {
    hide Takes, VerdictOf, OptWords, Size, SplitString;
    if |opts| > 0 {
      var a, b := OptWords(opts[0]), AllWords(opts[1..]);
      var piece := words[index..index + |a| + |b|];
      assert |a| > 0 by { SomeWords(opts[0]); }
      assert words[index..index + |a|] == piece[..|a|] == a;
      assert words[index + |a|..index + |a| + |b|] == piece[|a|..] == b;
      OptionIsPassed(name, words, index, opts[0]);
      OptionsArePassed(name, words, index + |a|, opts[1..], splitUsed);
    }
  }

  lemma SomeWords(o: Opt)
    ensures 1 <= |OptWords(o)| <= 2
  {}

  // ---------- one layer ----------

  /** One wrapper with its options comes off, and what it wraps is left. */
  lemma PeelUndoesLayer(l: Layer, inner: seq<string>)
    requires LayerOk(l) && |inner| > 0 && (l.dashes || PlainHead(inner[0]))
    ensures PeelOne(LayerWords(l) + inner) == Rest(inner)
  {
    hide Basename, VerdictOf, AllWords, Takes, SplitString, Size;
    var words := LayerWords(l) + inner;
    var name, n := Basename(l.word), 1 + |AllWords(l.opts)|;
    assert words[0] == l.word;
    assert words[1..n] == AllWords(l.opts);
    OptionsArePassed(name, words, 1, l.opts, false);
    if l.dashes {
      assert words[n] == "--" && words[n + 1..] == inner;
      assert VerdictOf(name, words, n) == End(1) by { DashesEnd(name, words, n); }
    } else {
      assert words[n] == inner[0] && words[n..] == inner;
      HeadStops(name, words, n);
    }
  }

  lemma DashesEnd(name: string, words: seq<string>, index: nat)
    requires index < |words| && words[index] == "--"
    ensures VerdictOf(name, words, index) == End(1)
  {
    hide EnvVerdict, OtherVerdict, Size;
  }

  // ---------- any number of layers ----------

  /** Peeling a command out of any stack of wrappers gives exactly that command. */
  lemma {:induction false} PeelUndoesLayers(layers: seq<Layer>, command: seq<string>)
    requires LayersOk(layers, command)
    ensures PeelChain(Layered(layers, command)) == Some(command) && |Layered(layers, command)| > 0
    decreases |layers|
  {
    hide PeelOne, LayerOk, Basename, LayerWords, PlainHead, Size;
    if |layers| == 0 {
      NoWrapperIsLeft(command);
    } else {
      var inner := Layered(layers[1..], command);
      PeelUndoesLayers(layers[1..], command);
      PeelUndoesLayer(layers[0], inner);
      ChainStep(LayerWords(layers[0]) + inner, inner);
      assert |LayerWords(layers[0])| > 0 by { SomeLayer(layers[0]); }
    }
  }

  lemma NoWrapperIsLeft(command: seq<string>)
    requires |command| > 0 && !IsOption(command[0]) && Basename(command[0]) !in WRAPPER_NAMES
    ensures PeelChain(command) == Some(command)
  {
    hide Basename, PeelFrom, Size;
  }

  lemma ChainStep(words: seq<string>, inner: seq<string>)
    requires PeelOne(words) == Rest(inner)
    ensures PeelChain(words) == PeelChain(inner)
  {
    hide PeelOne, Size;
  }

  lemma SomeLayer(l: Layer)
    ensures |LayerWords(l)| > 0
  {}

  // ---------- env -S ----------

  /**
   Handing words to env through `-S`, quoted, is handing them over directly, but that no second
   `-S` is allowed among them.
   */
  lemma SplitIsHandingOver(word: string, handed: seq<string>, rest: seq<string>)
    requires Basename(word) == "env" && |handed| <= TOKEN_CAP && |QuoteAll(handed)| <= CHAR_CAP
    ensures PeelOne([word, "-S", QuoteAll(handed)] + rest) == PeelFrom("env", [word] + handed + rest, 1, true)
  {
    hide Basename, SplitString, Size, QuoteAll;
    var words := [word, "-S", QuoteAll(handed)] + rest;
    SplitUndoesQuoting(handed);
    assert VerdictOf("env", words, 1) == Splice(QuoteAll(handed), 2) by { SplitVerdict(words); }
    assert words[..1] == [word] && words[1 + 2..] == rest;
  }

  lemma SplitVerdict(words: seq<string>)
    requires |words| > 2 && words[1] == "-S"
    ensures VerdictOf("env", words, 1) == Splice(words[2], 2)
  {
    hide Size;
  }
}
