/**
 An injective hash exists: the theorems that ask for one are about something.  Each writer puts a value
 in front of `k` so that value and rest can be told apart again.
 */
module GoalHash {
  import opened Options
  import opened StoryGraph
  import opened GoalLedger

  function PutString(s: string, k: string): string
    decreases |s|
  {
    if |s| == 0 then "." + k else ['+', s[0]] + PutString(s[1..], k)
  }

  lemma {:induction false} StringFree(a: string, b: string, x: string, y: string)
    requires PutString(a, x) == PutString(b, y)
    ensures a == b && x == y
    decreases |a|
  {
    var l, r := PutString(a, x), PutString(b, y);
    assert l[0] == r[0];
    if |a| == 0 {
      assert l[1..] == x && r[1..] == y;
    } else {
      assert l[1] == r[1];
      assert l[2..] == PutString(a[1..], x) && r[2..] == PutString(b[1..], y);
      StringFree(a[1..], b[1..], x, y);
    }
  }

  function Marks(n: nat): (s: string)
    ensures |s| == n
  {
    seq(n, _ => '1')
  }

  function PutNat(n: nat, k: string): string { PutString(Marks(n), k) }

  function PutOption(o: Option<string>, k: string): string {
    if o.None? then "." + k else "+" + PutString(o.value, k)
  }

  function PutStrings(l: seq<string>, k: string): string
    decreases |l|
  {
    if |l| == 0 then "." + k else "+" + PutString(l[0], PutStrings(l[1..], k))
  }

  function PutEvidence(e: Evidence, k: string): string {
    PutString(e.path, PutString(e.sha, PutString(e.message, PutString(e.at, k))))
  }

  function PutEvidences(l: seq<Evidence>, k: string): string
    decreases |l|
  {
    if |l| == 0 then "." + k else "+" + PutEvidence(l[0], PutEvidences(l[1..], k))
  }

  function PutStory(s: Story, k: string): string {
    PutString(s.id, PutString(s.title, PutStrings(s.dependsOn, PutString(s.acceptance, PutString(StatusName(s.status),
      PutOption(s.blockReason, PutOption(s.nextAction, PutEvidences(s.evidence, PutNat(s.checkpoints, k)))))))))
  }

  function StatusName(s: Status): string {
    match s
    case Pending => "p"
    case Ready => "r"
    case InProgress => "i"
    case Blocked => "b"
    case Complete => "c"
  }

  function PutStories(l: seq<Story>, k: string): string
    decreases |l|
  {
    if |l| == 0 then "." + k else "+" + PutStory(l[0], PutStories(l[1..], k))
  }

  function PutPayload(p: Payload, k: string): string {
    match p
    case GoalCreated(title, objective, spec, plan, stories) =>
      "0" + PutString(title, PutString(objective, PutOption(spec, PutOption(plan, PutStories(stories, k)))))
    case RunLinked(run) => "1" + PutString(run, k)
    case StoryStarted(id) => "2" + PutString(id, k)
    case Checkpointed(id, message, path, sha) =>
      "3" + PutString(id, PutString(message, PutString(path, PutString(sha, k))))
    case StoryBlocked(id, reason, next) => "4" + PutString(id, PutString(reason, PutOption(next, k)))
    case StoryResumed(id) => "5" + PutString(id, k)
    case StoryCompleted(id) => "6" + PutString(id, k)
    case ProposalImported(path, sha, note) => "7" + PutString(path, PutString(sha, PutString(note, k)))
    case GoalVerified(run) => "8" + PutString(run, k)
    case LedgerRepaired(sha, n, hash) => "9" + PutString(sha, PutNat(n, PutString(hash, k)))
    case OtherEvent(kind) => "a" + PutString(kind, k)
  }

  function PutBody(b: Body, k: string): string {
    PutNat(b.sequence, PutString(b.prevHash,
        PutString(b.goalId, PutString(b.ts, PutString(b.invocation, PutPayload(b.payload, k))))))
  }

  function Spelled(prev: string, b: Body): string { PutString(prev, PutBody(b, "")) }

  // ---------- each writer can be undone ----------

  lemma Tagged(c: char, d: char, x: string, y: string)
    requires [c] + x == [d] + y
    ensures c == d && x == y
  {
    assert ([c] + x)[0] == ([d] + y)[0];
    assert ([c] + x)[1..] == x && ([d] + y)[1..] == y;
  }

  lemma NatFree(a: nat, b: nat, x: string, y: string)
    requires PutNat(a, x) == PutNat(b, y)
    ensures a == b && x == y
  {
    StringFree(Marks(a), Marks(b), x, y);
    assert |Marks(a)| == |Marks(b)|;
  }

  lemma OptionFree(a: Option<string>, b: Option<string>, x: string, y: string)
    requires PutOption(a, x) == PutOption(b, y)
    ensures a == b && x == y
  {
    Tagged(if a.None? then '.' else '+', if b.None? then '.' else '+',
           if a.None? then x else PutString(a.value, x), if b.None? then y else PutString(b.value, y));
    if a.Some? { StringFree(a.value, b.value, x, y); }
  }

  lemma {:induction false} StringsFree(a: seq<string>, b: seq<string>, x: string, y: string)
    requires PutStrings(a, x) == PutStrings(b, y)
    ensures a == b && x == y
    decreases |a|
  {
    hide PutString;
    Tagged(if a == [] then '.' else '+', if b == [] then '.' else '+',
           if a == [] then x else PutString(a[0], PutStrings(a[1..], x)),
           if b == [] then y else PutString(b[0], PutStrings(b[1..], y)));
    if |a| > 0 {
      StringFree(a[0], b[0], PutStrings(a[1..], x), PutStrings(b[1..], y));
      StringsFree(a[1..], b[1..], x, y);
    }
  }

  lemma EvidenceFree(a: Evidence, b: Evidence, x: string, y: string)
    requires PutEvidence(a, x) == PutEvidence(b, y)
    ensures a == b && x == y
  {
    hide PutString;
    StringFree(a.path, b.path,
               PutString(a.sha, PutString(a.message, PutString(a.at, x))),
               PutString(b.sha, PutString(b.message, PutString(b.at, y))));
    StringFree(a.sha, b.sha, PutString(a.message, PutString(a.at, x)), PutString(b.message, PutString(b.at, y)));
    StringFree(a.message, b.message, PutString(a.at, x), PutString(b.at, y));
    StringFree(a.at, b.at, x, y);
  }

  lemma {:induction false} EvidencesFree(a: seq<Evidence>, b: seq<Evidence>, x: string, y: string)
    requires PutEvidences(a, x) == PutEvidences(b, y)
    ensures a == b && x == y
    decreases |a|
  {
    hide PutEvidence;
    Tagged(if a == [] then '.' else '+', if b == [] then '.' else '+',
           if a == [] then x else PutEvidence(a[0], PutEvidences(a[1..], x)),
           if b == [] then y else PutEvidence(b[0], PutEvidences(b[1..], y)));
    if |a| > 0 {
      EvidenceFree(a[0], b[0], PutEvidences(a[1..], x), PutEvidences(b[1..], y));
      EvidencesFree(a[1..], b[1..], x, y);
    }
  }

  lemma AllStrings()
    ensures forall a, b, x, y :: PutString(a, x) == PutString(b, y) ==> a == b && x == y
  {
    forall a, b, x, y | PutString(a, x) == PutString(b, y) ensures a == b && x == y { StringFree(a, b, x, y); }
  }

  lemma AllOptions()
    ensures forall a, b, x, y :: PutOption(a, x) == PutOption(b, y) ==> a == b && x == y
  {
    forall a, b, x, y | PutOption(a, x) == PutOption(b, y) ensures a == b && x == y { OptionFree(a, b, x, y); }
  }

  lemma StoryFree(a: Story, b: Story, x: string, y: string)
    requires PutStory(a, x) == PutStory(b, y)
    ensures a == b && x == y
  {
    hide PutString, PutStrings, PutOption, PutEvidences, PutNat;
    AllStrings();
    AllOptions();
    StringsFree(a.dependsOn, b.dependsOn, StoryRest(a, x), StoryRest(b, y));
    EvidencesFree(a.evidence, b.evidence, PutNat(a.checkpoints, x), PutNat(b.checkpoints, y));
    NatFree(a.checkpoints, b.checkpoints, x, y);
  }

  /** A story behind its dependencies. */
  function StoryRest(s: Story, k: string): string {
    PutString(s.acceptance, PutString(StatusName(s.status),
      PutOption(s.blockReason, PutOption(s.nextAction, PutEvidences(s.evidence, PutNat(s.checkpoints, k))))))
  }

  lemma {:induction false} StoriesFree(a: seq<Story>, b: seq<Story>, x: string, y: string)
    requires PutStories(a, x) == PutStories(b, y)
    ensures a == b && x == y
    decreases |a|
  {
    hide PutStory;
    Tagged(if a == [] then '.' else '+', if b == [] then '.' else '+',
           if a == [] then x else PutStory(a[0], PutStories(a[1..], x)),
           if b == [] then y else PutStory(b[0], PutStories(b[1..], y)));
    if |a| > 0 {
      StoryFree(a[0], b[0], PutStories(a[1..], x), PutStories(b[1..], y));
      StoriesFree(a[1..], b[1..], x, y);
    }
  }

  lemma PayloadFree(a: Payload, b: Payload, x: string, y: string)
    requires PutPayload(a, x) == PutPayload(b, y)
    ensures a == b && x == y
  {
    hide PutString, PutOption, PutStories, PutNat;
    var l, r := PutPayload(a, x), PutPayload(b, y);
    assert l[0] == r[0] && l[1..] == r[1..];
    AllStrings();
    AllOptions();
    if a.GoalCreated? {
      StoriesFree(a.stories, b.stories, x, y);
    } else if a.LedgerRepaired? {
      NatFree(a.validPrefixSeq, b.validPrefixSeq, PutString(a.validPrefixHash, x), PutString(b.validPrefixHash, y));
    }
  }

  lemma InjectiveHashExists()
    ensures Injective(Spelled)
  {
    hide PutString, PutPayload, PutNat;
    AllStrings();
    forall p, b, q, c | Spelled(p, b) == Spelled(q, c) ensures p == q && b == c {
      NatFree(b.sequence, c.sequence, BodyRest(b), BodyRest(c));
      PayloadFree(b.payload, c.payload, "", "");
    }
  }

  function BodyRest(b: Body): string {
    PutString(b.prevHash, PutString(b.goalId, PutString(b.ts, PutString(b.invocation, PutPayload(b.payload, "")))))
  }
}
