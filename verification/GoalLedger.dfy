/**
 The goal ledger of omg_cli/goals.py: hash-chained events, the file as lines, the scan that every
 operation starts with, and what a tail hash says about the events before it.
 The hash is a parameter; nothing is known of it but, where stated, that it is injective.
 */
module GoalLedger {
  import opened Options
  import opened StoryGraph

  datatype Payload =
    | GoalCreated(title: string, objective: string, specHash: Option<string>, planHash: Option<string>,
                  stories: seq<Story>)
    | RunLinked(run: string)
    | StoryStarted(id: string)
    | Checkpointed(id: string, message: string, path: string, sha: string)
    | StoryBlocked(id: string, reason: string, nextAction: Option<string>)
    | StoryResumed(id: string)
    | StoryCompleted(id: string)
    | ProposalImported(path: string, sha: string, note: string)
    | GoalVerified(run: string)
    | LedgerRepaired(originalSha: string, validPrefixSeq: nat, validPrefixHash: string)
    | OtherEvent(kind: string)

  /** An event without its hash: what the hash is taken over. */
  datatype Body = Body(sequence: nat, prevHash: string, goalId: string, ts: string, invocation: string,
                       payload: Payload)

  datatype Event = Event(body: Body, hash: string)

  /** One line of the file as the scan classifies it; `Foreign` is an object that is no event. */
  datatype Line = Blank | NotJson | NonObject | Foreign | EventLine(event: Event)

  /** The file: its lines, and whether the last one ends in a newline. */
  datatype File = File(lines: seq<Line>, terminated: bool)

  type Hash = (string, Body) -> string

  const SIXTEEN_ZEROS: string := "0000000000000000"

  const GENESIS: string := SIXTEEN_ZEROS + SIXTEEN_ZEROS + SIXTEEN_ZEROS + SIXTEEN_ZEROS

  ghost predicate Injective(h: Hash) {
    forall p, b, q, c :: h(p, b) == h(q, c) ==> p == q && b == c
  }

  // ---------- the scan ----------

  datatype Refusal = MidBlank | MidInvalidJson | NotAnObject | SequenceGap | PrevHashMismatch | EventHashMismatch

  /** Outcome of a scan: all good, damage confined to the last line, or a refusal. */
  datatype Scan =
    | Valid(events: seq<Event>)
    | Damaged(prefix: seq<Event>, kind: Line)
    | Refused(reason: Refusal)

  /** The loop of `_scan_ledger` from its current state. */
  function ScanLoop(h: Hash, lines: seq<Line>, idx: nat, prev: string, expected: nat, events: seq<Event>): Scan
    requires idx <= |lines|
    decreases |lines| - idx
  {
    if idx == |lines| then Valid(events)
    else
      match lines[idx]
      case Blank => if idx == |lines| - 1 then Damaged(events, Blank) else Refused(MidBlank)
      case NotJson => if idx == |lines| - 1 then Damaged(events, NotJson) else Refused(MidInvalidJson)
      case NonObject => Refused(NotAnObject)
      case Foreign => Refused(SequenceGap)
      case EventLine(e) =>
        if e.body.sequence != expected then Refused(SequenceGap)
        else if e.body.prevHash != prev then Refused(PrevHashMismatch)
        else if e.hash != h(prev, e.body) then Refused(EventHashMismatch)
        else ScanLoop(h, lines, idx + 1, e.hash, expected + 1, events + [e])
  }

  function ScanLedger(h: Hash, lines: seq<Line>): Scan {
    ScanLoop(h, lines, 0, GENESIS, 1, [])
  }

  /** `_scan_ledger` as the loop it is. */
  method ScanLedgerCode(h: Hash, lines: seq<Line>) returns (r: Scan)
    ensures r == ScanLedger(h, lines)
  {
    var events: seq<Event>, prev, expected, idx := [], GENESIS, 1, 0;
    while idx < |lines|
      invariant 0 <= idx <= |lines|
      invariant ScanLoop(h, lines, idx, prev, expected, events) == ScanLedger(h, lines)
    {
      match lines[idx] {
        case Blank => return if idx == |lines| - 1 then Damaged(events, Blank) else Refused(MidBlank);
        case NotJson => return if idx == |lines| - 1 then Damaged(events, NotJson) else Refused(MidInvalidJson);
        case NonObject => return Refused(NotAnObject);
        case Foreign => return Refused(SequenceGap);
        case EventLine(e) =>
          if e.body.sequence != expected { return Refused(SequenceGap); }
          if e.body.prevHash != prev { return Refused(PrevHashMismatch); }
          if e.hash != h(prev, e.body) { return Refused(EventHashMismatch); }
          events, prev, expected, idx := events + [e], e.hash, expected + 1, idx + 1;
      }
    }
    r := Valid(events);
  }

  // ---------- chains ----------

  function TailHash(events: seq<Event>): string {
    if |events| == 0 then GENESIS else events[|events| - 1].hash
  }

  predicate Linked(h: Hash, events: seq<Event>, k: nat)
    requires k < |events|
  {
    && events[k].body.sequence == k + 1
    && events[k].body.prevHash == TailHash(events[..k])
    && events[k].hash == h(events[k].body.prevHash, events[k].body)
  }

  /** Sequence numbers from 1 without a gap, each event hashed over the hash before it. */
  predicate Chain(h: Hash, events: seq<Event>) {
    forall k :: 0 <= k < |events| ==> Linked(h, events, k)
  }

  function Lines(events: seq<Event>): (lines: seq<Line>)
    ensures |lines| == |events| && forall i :: 0 <= i < |lines| ==> lines[i] == EventLine(events[i])
  {
    seq(|events|, i requires 0 <= i < |events| => EventLine(events[i]))
  }

  lemma ChainPrefix(h: Hash, events: seq<Event>, n: nat)
    requires Chain(h, events) && n <= |events|
    ensures Chain(h, events[..n])
  {
    forall k | 0 <= k < n ensures Linked(h, events[..n], k) {
      assert Linked(h, events, k);
      assert events[..n][..k] == events[..k];
    }
  }

  lemma ChainAppend(h: Hash, events: seq<Event>, e: Event)
    requires Chain(h, events)
    ensures Chain(h, events + [e]) <==> Linked(h, events + [e], |events|)
  {
    var all := events + [e];
    forall k | 0 <= k < |events| ensures Linked(h, all, k) {
      assert Linked(h, events, k);
      assert all[..k] == events[..k];
    }
  }

  /** A scan that has read a chain goes on reading exactly a chain. */
  lemma {:induction false} ScanLoopChain(h: Hash, lines: seq<Line>, events: seq<Event>)
    requires |events| <= |lines| && Chain(h, events) && lines[..|events|] == Lines(events)
    ensures var r := ScanLoop(h, lines, |events|, TailHash(events), |events| + 1, events);
      && (r.Valid? ==> Chain(h, r.events) && lines == Lines(r.events))
      && (r.Damaged? ==>
            Chain(h, r.prefix) && (r.kind == Blank || r.kind == NotJson) && lines == Lines(r.prefix) + [r.kind])
    decreases |lines| - |events|
  {
    var n := |events|;
    if n == |lines| {
      assert lines[..n] == lines;
    } else {
      match lines[n]
      case EventLine(e) =>
        var all := events + [e];
        assert all[..n] == events;
        ChainAppend(h, events, e);
        assert lines[..n + 1] == Lines(all);
        if Linked(h, all, n) {
          ScanLoopChain(h, lines, all);
        }
      case NonObject =>
      case Foreign =>
      case _ =>
        if n == |lines| - 1 { assert lines == lines[..n] + [lines[n]]; }
    }
  }

  /** A chain in front is read through. */
  lemma {:induction false} ScanThrough(h: Hash, events: seq<Event>, rest: seq<Line>, n: nat)
    requires Chain(h, events) && n <= |events|
    ensures ScanLoop(h, Lines(events) + rest, n, TailHash(events[..n]), n + 1, events[..n])
         == ScanLoop(h, Lines(events) + rest, |events|, TailHash(events), |events| + 1, events)
    decreases |events| - n
  {
    if n == |events| {
      assert events[..n] == events;
    } else {
      assert Linked(h, events, n);
      assert events[..n + 1] == events[..n] + [events[n]];
      assert (Lines(events) + rest)[n] == EventLine(events[n]);
      ScanThrough(h, events, rest, n + 1);
    }
  }

  /** The scan accepts exactly the hash chains, and sees a damaged last line exactly after one. */
  lemma ScanExactly(h: Hash, lines: seq<Line>, events: seq<Event>)
    ensures ScanLedger(h, lines) == Valid(events) <==> Chain(h, events) && lines == Lines(events)
    ensures forall kind :: ScanLedger(h, lines) == Damaged(events, kind) <==>
      Chain(h, events) && (kind == Blank || kind == NotJson) && lines == Lines(events) + [kind]
  {
    assert lines[..0] == Lines([]);
    ScanLoopChain(h, lines, []);
    if Chain(h, events) && lines == Lines(events) {
      assert lines == Lines(events) + [];
      assert events[..0] == [];
      ScanThrough(h, events, [], 0);
    }
    forall kind | Chain(h, events) && (kind == Blank || kind == NotJson) && lines == Lines(events) + [kind]
      ensures ScanLedger(h, lines) == Damaged(events, kind)
    {
      assert events[..0] == [];
      ScanThrough(h, events, [kind], 0);
    }
    LinesInjective();
  }

  lemma LinesInjective()
    ensures forall a, b {:trigger Lines(a), Lines(b)} :: Lines(a) == Lines(b) ==> a == b
    ensures forall a, b, x, y :: Lines(a) + [x] == Lines(b) + [y] ==> a == b && x == y
  {
    forall a, b | Lines(a) == Lines(b) ensures a == b {
      assert |a| == |Lines(a)| == |b|;
      forall i | 0 <= i < |a| ensures a[i] == b[i] { assert Lines(a)[i] == Lines(b)[i]; }
    }
    forall a, b, x, y | Lines(a) + [x] == Lines(b) + [y] ensures a == b && x == y {
      assert (Lines(a) + [x])[|a|] == x && (Lines(b) + [y])[|b|] == y;
      assert (Lines(a) + [x])[..|a|] == Lines(a) && (Lines(b) + [y])[..|b|] == Lines(b);
    }
  }

  /** The tail hash pins history: two chains that end in the same hash are the same events. */
  lemma {:induction false} TailHashPinsHistory(h: Hash, a: seq<Event>, b: seq<Event>)
    requires Injective(h) && Chain(h, a) && Chain(h, b)
    requires |a| > 0 && |b| > 0 && TailHash(a) == TailHash(b)
    ensures a == b
  {
    var m, n := |a| - 1, |b| - 1;
    assert Linked(h, a, m) && Linked(h, b, n);
    assert a[m].body == b[n].body;
    assert m == n;
    assert a == a[..m] + [a[m]] && b == b[..n] + [b[n]];
    ChainPrefix(h, a, m);
    ChainPrefix(h, b, n);
    if m > 0 {
      TailHashPinsHistory(h, a[..m], b[..n]);
    }
  }

  /** The same for files: equal tail hashes of two valid scans mean equal lines. */
  lemma TailHashPinsFile(h: Hash, f: seq<Line>, g: seq<Line>)
    requires Injective(h) && ScanLedger(h, f).Valid? && ScanLedger(h, g).Valid?
    requires |f| > 0 && |g| > 0
    requires TailHash(ScanLedger(h, f).events) == TailHash(ScanLedger(h, g).events)
    ensures f == g
  {
    var a, b := ScanLedger(h, f).events, ScanLedger(h, g).events;
    ScanExactly(h, f, a);
    ScanExactly(h, g, b);
    TailHashPinsHistory(h, a, b);
  }

  // ---------- appending ----------

  /** Appending a line to the file; a last line without newline swallows it. */
  function AppendLine(f: File, e: Event): File {
    if f.terminated || |f.lines| == 0 then File(f.lines + [EventLine(e)], true)
    else File(f.lines[..|f.lines| - 1] + [Merge(f.lines[|f.lines| - 1], e)], true)
  }

  /** Two texts on one line: only white space in front leaves the event readable. */
  function Merge(last: Line, e: Event): Line {
    if last.Blank? then EventLine(e) else NotJson
  }
}
