/**
 Lost updates. A cancelled write goes on outside the lock, so one may land between an operation's read
 and its write. That is exactly when generations stop being consecutive; while it does not happen,
 concurrency does not show.
 */
module ConfigUpdates {
  import opened ConfigResources
  import opened ConfigEdits
  import opened ConfigProtocol
  import opened ConfigSafety
  import opened ConfigTheorems

  predicate WroteTo(h: seq<Entry>, k: nat, d: Domain)
    requires k < |h|
  {
    h[k].Wrote? && h[k].domain == d
  }

  function Writes(h: seq<Entry>, d: Domain): nat {
    if h == [] then 0
    else
      var e := h[|h| - 1];
      Writes(h[..|h| - 1], d) + if e.Wrote? && e.domain == d then 1 else 0
  }

  // ---- four ways to say that no update of a domain is lost ----

  /** Write `m` lies between the read of the operation of write `k` and write `k` itself. */
  predicate Disturbs(h: seq<Entry>, seen: map<nat, nat>, m: nat, k: nat)
    requires m < k < |h|
  {
    h[k].op in seen && seen[h[k].op] <= m
  }

  /** No write of the domain lies between the read and the write of another operation. */
  predicate Undisturbed(h: seq<Entry>, seen: map<nat, nat>, d: Domain) {
    forall m, k :: 0 <= m < k < |h| && WroteTo(h, m, d) && WroteTo(h, k, d) ==> !Disturbs(h, seen, m, k)
  }

  /** Each write replaces the file that its operation had read. */
  predicate ReplacesRead(first: Files, h: seq<Entry>, d: Domain) {
    forall k :: 0 <= k < |h| && WroteTo(h, k, d) ==> h[k].before == Replay(first, h[..k]).At(d)
  }

  /** The generations of the writes count on from the first file. */
  predicate Consecutive(first: Files, h: seq<Entry>, d: Domain) {
    forall k :: 0 <= k < |h| && WroteTo(h, k, d) ==>
                  Generation(h[k].after) == Generation(first.At(d)) + Writes(h[..k], d) + 1
  }

  /** No generation is written twice. */
  predicate WrittenOnce(h: seq<Entry>, d: Domain) {
    forall m, k :: 0 <= m < k < |h| && WroteTo(h, m, d) && WroteTo(h, k, d) ==>
                     Generation(h[m].after) != Generation(h[k].after)
  }

  // ---- writes and the file between them ----

  /** Without a write the file stays. */
  lemma {:induction false} Unchanged(first: Files, h: seq<Entry>, a: nat, b: nat, d: Domain)
    requires a <= b <= |h| && forall m :: a <= m < b ==> !WroteTo(h, m, d)
    ensures Replay(first, h[..b]).At(d) == Replay(first, h[..a]).At(d) && Writes(h[..b], d) == Writes(h[..a], d)
    decreases b
  {
    if a < b {
      assert h[..b][..b - 1] == h[..b - 1] && !WroteTo(h, b - 1, d);
      Unchanged(first, h, a, b - 1, d);
    }
  }

  lemma {:induction false} WritesGrow(h: seq<Entry>, a: nat, b: nat, d: Domain)
    requires a <= b <= |h|
    ensures Writes(h[..a], d) <= Writes(h[..b], d)
    decreases b
  {
    if a < b {
      assert h[..b][..b - 1] == h[..b - 1];
      WritesGrow(h, a, b - 1, d);
    }
  }

  lemma LaterWriteCounts(h: seq<Entry>, a: nat, m: nat, b: nat, d: Domain)
    requires a <= m < b <= |h| && WroteTo(h, m, d)
    ensures Writes(h[..a], d) < Writes(h[..b], d)
  {
    assert h[..m + 1][..m] == h[..m];
    WritesGrow(h, a, m, d);
    WritesGrow(h, m + 1, b, d);
  }

  /** One generation on from the file that was read. */
  predicate RightWrites(h: seq<Entry>) {
    forall k :: 0 <= k < |h| && h[k].Wrote? ==>
                  h[k].after.Stored? && Generation(h[k].after) == Generation(h[k].before) + 1
  }

  lemma Prefix(first: Files, h: seq<Entry>, n: nat, d: Domain)
    requires n <= |h| && ReplacesRead(first, h, d)
    ensures ReplacesRead(first, h[..n], d)
  {
    forall k | 0 <= k < n && WroteTo(h[..n], k, d)
      ensures h[..n][k].before == Replay(first, h[..n][..k]).At(d)
    {
      assert WroteTo(h, k, d) && h[..n][..k] == h[..k];
    }
  }

  lemma {:induction false} GenerationsCount(first: Files, h: seq<Entry>, n: nat, d: Domain)
    requires n <= |h| && RightWrites(h) && ReplacesRead(first, h[..n], d)
    ensures Generation(Replay(first, h[..n]).At(d)) == Generation(first.At(d)) + Writes(h[..n], d)
  {
    if n > 0 {
      assert h[..n][..n - 1] == h[..n - 1];
      Prefix(first, h[..n], n - 1, d);
      GenerationsCount(first, h, n - 1, d);
      assert WroteTo(h, n - 1, d) ==> WroteTo(h[..n], n - 1, d);
    }
  }

  // ---- they are the same ----

  lemma UndisturbedReplaces(first: Files, h: seq<Entry>, seen: map<nat, nat>, d: Domain)
    requires WritesRead(first, h, seen) && Undisturbed(h, seen, d)
    ensures ReplacesRead(first, h, d)
  {
    forall k | 0 <= k < |h| && WroteTo(h, k, d)
      ensures h[k].before == Replay(first, h[..k]).At(d)
    {
      var a := seen[h[k].op];
      forall m | a <= m < k
        ensures !WroteTo(h, m, d)
      {
        assert Disturbs(h, seen, m, k);
      }
      Unchanged(first, h, a, k, d);
    }
  }

  lemma ReplacesCount(first: Files, h: seq<Entry>, d: Domain)
    requires RightWrites(h) && ReplacesRead(first, h, d)
    ensures Consecutive(first, h, d)
  {
    forall k | 0 <= k < |h| && WroteTo(h, k, d)
      ensures Generation(h[k].after) == Generation(first.At(d)) + Writes(h[..k], d) + 1
    {
      Prefix(first, h, k, d);
      GenerationsCount(first, h, k, d);
    }
  }

  lemma ConsecutiveOnce(first: Files, h: seq<Entry>, d: Domain)
    requires Consecutive(first, h, d)
    ensures WrittenOnce(h, d)
  {
    forall m, k | 0 <= m < k < |h| && WroteTo(h, m, d) && WroteTo(h, k, d)
      ensures Generation(h[m].after) != Generation(h[k].after)
    {
      LaterWriteCounts(h, m, m, k, d);
    }
  }

  /** The first write of the domain from `a` on, where there is one at `m`. */
  lemma {:induction false} FirstWrite(first: Files, h: seq<Entry>, a: nat, m: nat, d: Domain) returns (j: nat)
    requires a <= m < |h| && WroteTo(h, m, d)
    ensures a <= j <= m && WroteTo(h, j, d) && Writes(h[..j], d) == Writes(h[..a], d)
    decreases m - a
  {
    if WroteTo(h, a, d) {
      j := a;
    } else {
      Unchanged(first, h, a, a + 1, d);
      j := FirstWrite(first, h, a + 1, m, d);
    }
  }

  /** A write that is disturbed, with none before it, writes the generation of a write it overlooked. */
  lemma DisturbedRepeats(first: Files, h: seq<Entry>, seen: map<nat, nat>, d: Domain, m: nat, k: nat)
    requires WritesRead(first, h, seen) && RightWrites(h)
    requires m < k < |h| && WroteTo(h, m, d) && WroteTo(h, k, d) && Disturbs(h, seen, m, k)
    requires ReplacesRead(first, h[..k], d)
    ensures !WrittenOnce(h, d)
  {
    var a := seen[h[k].op];
    var j := FirstWrite(first, h, a, m, d);
    assert h[..k][..a] == h[..a] && h[..k][..j] == h[..j];
    Prefix(first, h[..k], a, d);
    GenerationsCount(first, h, a, d);
    Prefix(first, h[..k], j, d);
    GenerationsCount(first, h, j, d);
    assert WroteTo(h[..k], j, d);
  }

  lemma {:induction false} OnceUndisturbed(first: Files, h: seq<Entry>, seen: map<nat, nat>, n: nat, d: Domain)
    requires WritesRead(first, h, seen) && RightWrites(h) && WrittenOnce(h, d) && n <= |h|
    ensures Undisturbed(h[..n], seen, d) && ReplacesRead(first, h[..n], d)
  {
    if n > 0 {
      OnceUndisturbed(first, h, seen, n - 1, d);
      forall m | 0 <= m < n - 1 && WroteTo(h[..n], m, d) && WroteTo(h[..n], n - 1, d)
        ensures !Disturbs(h[..n], seen, m, n - 1)
      {
        if Disturbs(h, seen, m, n - 1) {
          DisturbedRepeats(first, h, seen, d, m, n - 1);
        }
      }
      forall m, k | 0 <= m < k < n && WroteTo(h[..n], m, d) && WroteTo(h[..n], k, d)
        ensures !Disturbs(h[..n], seen, m, k)
      {
        if k < n - 1 {
          assert WroteTo(h[..n - 1], m, d) && WroteTo(h[..n - 1], k, d);
        }
      }
      WritesReadPrefix(first, h, seen, n);
      UndisturbedReplaces(first, h[..n], seen, d);
    }
  }

  lemma WritesReadPrefix(first: Files, h: seq<Entry>, seen: map<nat, nat>, n: nat)
    requires WritesRead(first, h, seen) && n <= |h|
    ensures WritesRead(first, h[..n], seen)
  {
    forall k | 0 <= k < n && h[..n][k].Wrote?
      ensures ReadFrom(first, h[..n], seen, h[k].op, h[k].domain, h[k].before) && seen[h[k].op] <= k
    {
      assert h[..n][..seen[h[k].op]] == h[..seen[h[k].op]];
    }
  }

  lemma AllWritesRight(x: Syntax, first: Files, acts: seq<Action>, s: System)
    requires Run(x, first, acts, s)
    ensures RightWrites(s.history)
  {
    forall k | 0 <= k < |s.history| && s.history[k].Wrote?
      ensures s.history[k].after.Stored?
      ensures Generation(s.history[k].after) == Generation(s.history[k].before) + 1
    {
      WriteBehindStart(x, first, acts, s, k);
    }
  }

  /** In every run, cancelled writes included: no update of a domain is lost exactly if no write of the
      domain lands between another operation's read and its write; then, and only then, the generations
      are consecutive, and then, and only then, none is written twice. */
  lemma NoUpdateLostIff(x: Syntax, first: Files, acts: seq<Action>, s: System, d: Domain)
    requires Run(x, first, acts, s)
    ensures ReplacesRead(first, s.history, d) <==> Undisturbed(s.history, s.seen, d)
    ensures Consecutive(first, s.history, d) <==> Undisturbed(s.history, s.seen, d)
    ensures WrittenOnce(s.history, d) <==> Undisturbed(s.history, s.seen, d)
  {
    var h := s.history;
    AllWritesRight(x, first, acts, s);
    if Undisturbed(h, s.seen, d) {
      UndisturbedReplaces(first, h, s.seen, d);
    }
    if ReplacesRead(first, h, d) {
      ReplacesCount(first, h, d);
    }
    if Consecutive(first, h, d) {
      ConsecutiveOnce(first, h, d);
    }
    if WrittenOnce(h, d) {
      OnceUndisturbed(first, h, s.seen, |h|, d);
      assert h[..|h|] == h;
    }
  }

  // ---- what undisturbed runs promise ----

  /** The stored generation counts the writes of the domain. */
  lemma GenerationsConsecutive(x: Syntax, first: Files, acts: seq<Action>, s: System, d: Domain)
    requires Run(x, first, acts, s)
    ensures Writes(s.history, d) == 0 ==> s.files.At(d) == first.At(d)
    ensures Undisturbed(s.history, s.seen, d) ==>
              Generation(s.files.At(d)) == Generation(first.At(d)) + Writes(s.history, d)
  {
    var h := s.history;
    assert h[..|h|] == h && h[..0] == [];
    if Writes(h, d) == 0 {
      forall m | 0 <= m < |h|
        ensures !WroteTo(h, m, d)
      {
        if WroteTo(h, m, d) {
          LaterWriteCounts(h, 0, m, |h|, d);
        }
      }
      Unchanged(first, h, 0, |h|, d);
    }
    if Undisturbed(h, s.seen, d) {
      AllWritesRight(x, first, acts, s);
      UndisturbedReplaces(first, h, s.seen, d);
      GenerationsCount(first, h, |h|, d);
    }
  }

  /** Then no two successful operations of the domain are told the same generation. */
  lemma SavedGenerationsDiffer(x: Syntax, first: Files, acts: seq<Action>, s: System, i: nat, j: nat)
    requires Run(x, first, acts, s) && i < |s.ops| && j < |s.ops| && i != j
    requires s.ops[i].phase.Answered? && s.ops[i].phase.answer.Saved?
    requires s.ops[j].phase.Answered? && s.ops[j].phase.answer.Saved?
    requires DomainOf(s.ops[i].request) == DomainOf(s.ops[j].request)
    requires Undisturbed(s.history, s.seen, DomainOf(s.ops[i].request))
    ensures s.ops[i].phase.answer.generation != s.ops[j].phase.answer.generation
  {
    var h, d := s.history, DomainOf(s.ops[i].request);
    NoUpdateLostIff(x, first, acts, s, d);
    AnswersTellTheRecord(x, first, acts, s, i);
    AnswersTellTheRecord(x, first, acts, s, j);
    StoryIsOnRecord(h, i, Story(h, i)[1]);
    StoryIsOnRecord(h, j, Story(h, j)[1]);
    var k :| 0 <= k < |h| && h[k] == Story(h, i)[1];
    var m :| 0 <= m < |h| && h[m] == Story(h, j)[1];
    assert WroteTo(h, k, d) && WroteTo(h, m, d) && k != m;
  }

  // ---- without a cancelled write ----

  /** Nothing flies, no write has landed behind the read of a write to come, and none is disturbed. */
  predicate Calm(s: System) {
    && s.flying == []
    && (forall i, m :: 0 <= i < |s.ops| && s.ops[i].phase.Writing? && i in s.seen && s.seen[i] <= m < |s.history| ==>
          !s.history[m].Wrote?)
    && forall m, k :: 0 <= m < k < |s.history| && s.history[m].Wrote? && s.history[k].Wrote? ==>
                        !Disturbs(s.history, s.seen, m, k)
  }

  lemma QuietCalm(s: System, n: System)
    requires Calm(s) && Adds(s.history, n.history) && n.seen == s.seen && n.flying == s.flying
    requires forall j :: 0 <= j < |n.ops| && n.ops[j].phase.Writing? ==> j < |s.ops| && n.ops[j] == s.ops[j]
    ensures Calm(n)
  {
    forall m, k | 0 <= m < k < |n.history| && n.history[m].Wrote? && n.history[k].Wrote?
      ensures !Disturbs(n.history, n.seen, m, k)
    {
      assert !Disturbs(s.history, s.seen, m, k);
    }
  }

  lemma WriteCalm(x: Syntax, first: Files, s: System, i: nat, effect: Effect)
    requires Inv(x, first, s) && Calm(s) && Enabled(s, Move(i, effect)) && s.ops[i].phase.Writing? && effect != NotDone
    ensures Calm(Apply(x, s, Move(i, effect)))
  {
    var n := Apply(x, s, Move(i, effect));
    forall m, k | 0 <= m < k < |n.history| && n.history[m].Wrote? && n.history[k].Wrote?
      ensures !Disturbs(n.history, n.seen, m, k)
    {
      assert k < |s.history| ==> !Disturbs(s.history, s.seen, m, k);
    }
  }

  lemma ReadCalm(x: Syntax, first: Files, s: System, i: nat, effect: Effect)
    requires Inv(x, first, s) && Calm(s) && Enabled(s, Move(i, effect)) && s.ops[i].phase.Reading?
    ensures Calm(Apply(x, s, Move(i, effect)))
  {
    var n := Apply(x, s, Move(i, effect));
    ReaderHasNotWritten(x, s, i);
    forall m, k | 0 <= m < k < |n.history| && n.history[m].Wrote? && n.history[k].Wrote?
      ensures !Disturbs(n.history, n.seen, m, k)
    {
      assert !Disturbs(s.history, s.seen, m, k);
    }
  }

  lemma StepCalm(x: Syntax, first: Files, s: System, a: Action)
    requires Inv(x, first, s) && Calm(s) && Enabled(s, a) && !a.CutWrite?
    ensures Calm(Apply(x, s, a))
  {
    match a
    case Arrive(_, _) => QuietCalm(s, Apply(x, s, a));
    case Cancel(i, effect) =>
      AbandonFrame(i, s.ops[i].allowed, Desk(s.ops[i].phase, s.files, s.history), effect);
      QuietCalm(s, Apply(x, s, a));
    case Move(i, effect) =>
      if s.ops[i].phase.Reading? {
        ReadCalm(x, first, s, i, effect);
      } else if s.ops[i].phase.Writing? && effect != NotDone {
        WriteCalm(x, first, s, i, effect);
      } else {
        QuietMove(x, s, i, effect);
        QuietCalm(s, Apply(x, s, a));
      }
  }

  lemma {:induction false} StaysCalm(x: Syntax, first: Files, s: System, acts: seq<Action>)
    requires Inv(x, first, s) && Calm(s) && Possible(x, first, s, acts)
    requires forall k :: 0 <= k < |acts| ==> !acts[k].CutWrite?
    ensures Calm(After(x, first, s, acts))
    decreases |acts|
  {
    if acts != [] {
      StepKeeps(x, first, s, acts[0]);
      StepCalm(x, first, s, acts[0]);
      StaysCalm(x, first, Apply(x, s, acts[0]), acts[1..]);
    }
  }

  /** In a run that cancels no operation in its write the lock does what it is for: no update of any
      domain is lost. */
  lemma LockSuffices(x: Syntax, first: Files, acts: seq<Action>, s: System, d: Domain)
    requires Run(x, first, acts, s) && forall k :: 0 <= k < |acts| ==> !acts[k].CutWrite?
    ensures Undisturbed(s.history, s.seen, d)
  {
    IdleInv(x, first);
    StaysCalm(x, first, Idle(first), acts);
  }

  // ---- resources ----

  /** The changes whose documents were written, in the order of the writes. */
  function WrittenChanges(ops: seq<Op>, h: seq<Entry>): seq<Change> {
    if h == [] then []
    else
      var e, front := h[|h| - 1], WrittenChanges(ops, h[..|h| - 1]);
      if e.Wrote? && e.op < |ops| && ops[e.op].request.EditResources? then front + [ops[e.op].request.change] else front
  }

  lemma {:induction false} StepsAppend(x: Syntax, rs: seq<Resource>, cs: seq<Change>, c: Change)
    ensures Steps(x, rs, cs + [c]) == Step(x, Steps(x, rs, cs), c)
    decreases |cs|
  {
    if cs == [] {
      assert cs + [c] == [c];
    } else {
      assert (cs + [c])[1..] == cs[1..] + [c];
      StepsAppend(x, Step(x, rs, cs[0]), cs[1..], c);
    }
  }

  /** A write of resources holds what its change makes of the document that was read. */
  predicate RightDocument(x: Syntax, ops: seq<Op>, e: Entry) {
    && e.Wrote? && e.op < |ops|
    && (e.domain.ResourcesDomain? <==> ops[e.op].request.EditResources?)
    && (e.domain.ResourcesDomain? ==>
          && ValidDocument(x, ResourcesOf(e.before))
          && ResourcesOf(e.after) == Step(x, ResourcesOf(e.before), ops[e.op].request.change))
  }

  predicate RightDocuments(x: Syntax, ops: seq<Op>, h: seq<Entry>) {
    forall k :: 0 <= k < |h| && h[k].Wrote? ==> RightDocument(x, ops, h[k])
  }

  lemma AllDocumentsRight(x: Syntax, first: Files, acts: seq<Action>, s: System)
    requires Run(x, first, acts, s)
    ensures RightDocuments(x, s.ops, s.history)
  {
    forall k | 0 <= k < |s.history| && s.history[k].Wrote?
      ensures RightDocument(x, s.ops, s.history[k])
    {
      WriteBehindStart(x, first, acts, s, k);
    }
  }

  lemma {:induction false} ReplayResources(x: Syntax, ops: seq<Op>, first: Files, h: seq<Entry>, n: nat)
    requires n <= |h| && RightDocuments(x, ops, h) && ReplacesRead(first, h, ResourcesDomain)
    ensures ResourcesOf(Replay(first, h[..n]).resources)
        == Steps(x, ResourcesOf(first.resources), WrittenChanges(ops, h[..n]))
  {
    if n > 0 {
      var e := h[n - 1];
      assert h[..n][..n - 1] == h[..n - 1];
      ReplayResources(x, ops, first, h, n - 1);
      if e.Wrote? && e.domain.ResourcesDomain? {
        assert WroteTo(h, n - 1, ResourcesDomain) && RightDocument(x, ops, e);
        StepsAppend(x, ResourcesOf(first.resources), WrittenChanges(ops, h[..n - 1]), ops[e.op].request.change);
      } else if e.Wrote? {
        assert RightDocument(x, ops, e);
      }
    }
  }

  /** Then concurrency does not show in the resources document: it is what the written changes give
      when they are applied one after the other. */
  lemma DocumentIsSerial(x: Syntax, first: Files, acts: seq<Action>, s: System)
    requires Run(x, first, acts, s) && Undisturbed(s.history, s.seen, ResourcesDomain)
    ensures ResourcesOf(s.files.resources) == Steps(x, ResourcesOf(first.resources), WrittenChanges(s.ops, s.history))
  {
    NoUpdateLostIff(x, first, acts, s, ResourcesDomain);
    AllDocumentsRight(x, first, acts, s);
    ReplayResources(x, s.ops, first, s.history, |s.history|);
    assert s.history[..|s.history|] == s.history;
  }

  predicate Holds(rs: seq<Resource>, id: string) { var r := Lookup(rs, id); r.Some? && Configured(r.value) }

  lemma {:induction false} ChangeIsWritten(ops: seq<Op>, h: seq<Entry>, k: nat)
    requires k < |h| && h[k].Wrote? && h[k].op < |ops| && ops[h[k].op].request.EditResources?
    ensures ops[h[k].op].request.change in WrittenChanges(ops, h)
  {
    if k < |h| - 1 {
      ChangeIsWritten(ops, h[..|h| - 1], k);
    }
  }

  /** Each document comes from one that was stored before, so the secret is in all of them. */
  lemma {:induction false} SecretInEveryDocument(x: Syntax, ops: seq<Op>, first: Files, h: seq<Entry>,
                                                 seen: map<nat, nat>, n: nat, id: string)
    requires n <= |h| && RightDocuments(x, ops, h) && WritesRead(first, h, seen)
    requires forall c :: c in WrittenChanges(ops, h) ==> !Drops(c, id)
    requires Holds(ResourcesOf(first.resources), id)
    ensures Holds(ResourcesOf(Replay(first, h[..n]).resources), id)
  {
    if n > 0 {
      var e := h[n - 1];
      assert h[..n][..n - 1] == h[..n - 1];
      SecretInEveryDocument(x, ops, first, h, seen, n - 1, id);
      if WroteTo(h, n - 1, ResourcesDomain) {
        assert RightDocument(x, ops, e);
        SecretInEveryDocument(x, ops, first, h, seen, seen[e.op], id);
        ChangeIsWritten(ops, h, n - 1);
        StepKeepsConfigured(x, ResourcesOf(e.before), ops[e.op].request.change, id);
      }
    }
  }

  /** In every run, disturbed or not, a configured secret stays configured unless a clearing or a
      deletion of that very resource was written. */
  lemma SecretSurvivesRuns(x: Syntax, first: Files, acts: seq<Action>, s: System, id: string)
    requires Run(x, first, acts, s)
    requires forall c :: c in WrittenChanges(s.ops, s.history) ==> !Drops(c, id)
    requires Holds(ResourcesOf(first.resources), id)
    ensures Holds(ResourcesOf(s.files.resources), id)
  {
    AllDocumentsRight(x, first, acts, s);
    SecretInEveryDocument(x, s.ops, first, s.history, s.seen, |s.history|, id);
    assert s.history[..|s.history|] == s.history;
  }
}
