/**
 What is on record of an operation, in every run: whatever the interleaving, whichever appends and
 file accesses fail, and wherever operations are cancelled, in their writes too.
 */
module ConfigTheorems {
  import opened ConfigResources
  import opened ConfigProtocol
  import opened ConfigSafety

  // ---- the record of one operation ----

  /** What an answer tells about the record. */
  predicate Told(x: Syntax, i: nat, o: Op, answer: Answer, t: seq<Entry>) {
    match answer
    case Saved(g) =>
      && |t| == 3 && t[0] == Started(i) && t[2] == Terminal(i, Succeeded)
      && t[1].Wrote? && t[1].domain == DomainOf(o.request) && Generation(t[1].after) == g
      && RightWrite(x, o.request, t[1].before, t[1].after)
    case Refused(why) =>
      && |t| == 2 && t[0] == Started(i) && t[1].Terminal? && t[1].op == i && t[1].verdict.Failed?
      && t[1].verdict.reason == (if why == NotFound then TargetNotFound else if why == Conflict then ConflictReason
                                 else ConfigInvalid)
    case Forbidden => !o.allowed && t == [Denied(i)]
    case Raised => t == [Started(i)] && BadSecret(x, o.request)
    case Unavailable => Untold(x, i, o, t)
    case Cancelled => Untold(x, i, o, t)
  }

  /** The records behind an answer that tells no result, one by one: a failure that is on record
      need not have been told, and a success on record has its write. */
  predicate Untold(x: Syntax, i: nat, o: Op, t: seq<Entry>) {
    if !o.allowed then t == [] || t == [Denied(i)]
    else
      || t == [] || t == [Started(i)]
      || (|t| == 2 && t[0] == Started(i)
          && (OwnWrite(x, i, o, t[1]) || (t[1].Terminal? && t[1].op == i && t[1].verdict.Failed?)))
      || (|t| == 3 && t[0] == Started(i) && OwnWrite(x, i, o, t[1])
          && (t[2] == Terminal(i, Succeeded) || t[2] == Terminal(i, Failed(FileIoFailed))))
  }

  predicate OwnWrite(x: Syntax, i: nat, o: Op, e: Entry) {
    e.Wrote? && e.op == i && e.domain == DomainOf(o.request) && RightWrite(x, o.request, e.before, e.after)
  }

  /** What each answer tells of the record. A success stands for a start, the write of the new
      document and a success; a refusal for a start and a failure, without a write; an escaped contract
      error for a start alone and a secret that the request brought along; of an operation told no result
      only the listed records are possible. */
  lemma AnswersTellTheRecord(x: Syntax, first: Files, acts: seq<Action>, s: System, i: nat)
    requires Run(x, first, acts, s) && i < |s.ops| && s.ops[i].phase.Answered?
    ensures Told(x, i, s.ops[i], s.ops[i].phase.answer, Story(s.history, i))
  {
    assert StoryFits(x, i, s.ops[i], Story(s.history, i));
    if s.ops[i].phase.answer.Unavailable? || s.ops[i].phase.answer.Cancelled? {
      PartialUntold(x, i, s.ops[i], Story(s.history, i));
    }
  }

  lemma PartialUntold(x: Syntax, i: nat, o: Op, t: seq<Entry>)
    requires Partial(x, i, o, t)
    ensures Untold(x, i, o, t)
  {
    if !(t == [] || (!o.allowed && t == [Denied(i)]) || (o.allowed && Opening(x, i, o.request, t))) {
      var front := t[..|t| - 1];
      assert t == front + [t[|t| - 1]];
      assert t[0] == front[0] && (|front| == 2 ==> t[1] == front[1]);
    }
  }

  lemma {:induction false} StoryOfPrefix(h: seq<Entry>, k: nat, i: nat)
    requires k <= |h|
    ensures Story(h[..k], i) <= Story(h, i)
  {
    if k == |h| {
      assert h[..k] == h;
    } else {
      StoryOfPrefix(h[..|h| - 1], k, i);
      assert h[..|h| - 1][..k] == h[..k];
    }
  }

  /** In any possible record the write comes second, behind the start. */
  lemma WriteComesSecond(x: Syntax, i: nat, o: Op, t: seq<Entry>, m: nat)
    requires StoryFits(x, i, o, t) && m < |t| && t[m].Wrote?
    ensures m == 1 && t[0] == Started(i) && t[m].op == i && t[m].domain == DomainOf(o.request) && o.allowed
    ensures RightWrite(x, o.request, t[m].before, t[m].after)
  {
    if o.phase.Answered? && m < |t| - 1 {
      assert t[m] == t[..|t| - 1][m];
    }
  }

  /** When a file is written, the record of the operation is exactly its start. */
  lemma WriteBehindStart(x: Syntax, first: Files, acts: seq<Action>, s: System, k: nat)
    requires Run(x, first, acts, s) && k < |s.history| && s.history[k].Wrote?
    ensures WroteBehindStart(x, s, k)
  {
    SoundWrites(x, s, k);
  }

  predicate WroteBehindStart(x: Syntax, s: System, k: nat)
    requires k < |s.history| && s.history[k].Wrote?
  {
    var e := s.history[k];
    && e.op < |s.ops| && s.ops[e.op].allowed
    && e.domain == DomainOf(s.ops[e.op].request)
    && RightWrite(x, s.ops[e.op].request, e.before, e.after)
    && Story(s.history[..k], e.op) == [Started(e.op)]
  }

  lemma SoundWrites(x: Syntax, s: System, k: nat)
    requires Sound(x, s) && k < |s.history| && s.history[k].Wrote?
    ensures WroteBehindStart(x, s, k)
  {
    var h, e := s.history, s.history[k];
    assert StoryFits(x, e.op, s.ops[e.op], Story(h, e.op));
    StoryOfPrefix(h, k + 1, e.op);
    assert h[..k + 1] == h[..k] + [e];
    StoryAppend(h[..k], e, e.op);
    WriteComesSecond(x, e.op, s.ops[e.op], Story(h, e.op), |Story(h[..k], e.op)|);
  }

  lemma {:induction false} StoryIsOnRecord(h: seq<Entry>, i: nat, e: Entry)
    requires e in Story(h, i)
    ensures e in h && e.op == i
  {
    if e in Story(h[..|h| - 1], i) {
      StoryIsOnRecord(h[..|h| - 1], i, e);
    }
  }

  /** No file is written before the start of its operation is on record. */
  lemma NoWriteWithoutStart(x: Syntax, first: Files, acts: seq<Action>, s: System, k: nat)
    requires Run(x, first, acts, s) && k < |s.history| && s.history[k].Wrote?
    ensures Started(s.history[k].op) in s.history[..k]
  {
    WriteBehindStart(x, first, acts, s, k);
    StoryIsOnRecord(s.history[..k], s.history[k].op, Started(s.history[k].op));
  }

  // ---- secrets that the contract rejects ----

  /** Building the new content fails with a contract error exactly if the request itself brings a
      secret that the contract rejects; what is stored never is the reason. */
  lemma RaisedIff(x: Syntax, f: File, q: Request)
    requires Typed(x, DomainOf(q), f)
    ensures Built(x, q, f) == Answered(Raised) <==> BadSecret(x, q)
  {
  }

  lemma RightWriteCarriesNoBadSecret(x: Syntax, q: Request, before: File, after: File)
    requires RightWrite(x, q, before, after)
    ensures !BadSecret(x, q)
  {
    RaisedIff(x, before, q);
  }

  /** In every run only such a request is answered by the escaped error, and it never writes a file,
      is never told a success and never has one on record. */
  lemma BadSecretsNeverWrite(x: Syntax, first: Files, acts: seq<Action>, s: System, i: nat)
    requires Run(x, first, acts, s) && i < |s.ops|
    ensures s.ops[i].phase == Answered(Raised) ==> BadSecret(x, s.ops[i].request)
    ensures BadSecret(x, s.ops[i].request) ==>
              && (forall k :: 0 <= k < |s.history| && s.history[k].Wrote? ==> s.history[k].op != i)
              && (s.ops[i].phase.Answered? ==>
                    !s.ops[i].phase.answer.Saved? && Terminal(i, Succeeded) !in Story(s.history, i))
  {
    if s.ops[i].phase.Answered? {
      AnswersTellTheRecord(x, first, acts, s, i);
    }
    if BadSecret(x, s.ops[i].request) {
      forall k | 0 <= k < |s.history| && s.history[k].Wrote?
        ensures s.history[k].op != i
      {
        WriteBehindStart(x, first, acts, s, k);
        RightWriteCarriesNoBadSecret(x, s.ops[s.history[k].op].request, s.history[k].before, s.history[k].after);
      }
      if s.ops[i].phase.Answered? {
        NoSuccessWithoutWrite(x, i, s.ops[i], Story(s.history, i));
      }
    }
  }

  lemma NoSuccessWithoutWrite(x: Syntax, i: nat, o: Op, t: seq<Entry>)
    requires o.phase.Answered? && Told(x, i, o, o.phase.answer, t) && BadSecret(x, o.request)
    ensures !o.phase.answer.Saved? && Terminal(i, Succeeded) !in t
  {
    if |t| == 3 && t[1].Wrote? {
      RightWriteCarriesNoBadSecret(x, o.request, t[1].before, t[1].after);
      assert false;
    }
  }

  // ---- cancelled operations ----

  /** The entry that an operation waits for where it stands. */
  predicate Awaits(id: nat, allowed: bool, p: Phase, e: Entry) {
    || (p.Arrived? && !allowed && e == Denied(id))
    || (p.Starting? && e == Started(id))
    || (p.Closing? && e == Terminal(id, p.verdict))
  }

  ghost predicate CancelledLeaves(id: nat, allowed: bool, d: Desk, h: seq<Entry>)
    requires !d.phase.Writing? && !d.phase.Answered?
  {
    exists effect :: Abandon(id, allowed, d, effect).history == h
  }

  /** A cancelled operation that was not writing leaves the record as it was or with the entry it waited for,
      and either can happen. */
  lemma CancelledLeavesIff(id: nat, allowed: bool, d: Desk, h: seq<Entry>)
    requires !d.phase.Writing? && !d.phase.Answered?
    ensures CancelledLeaves(id, allowed, d, h)
            <==> h == d.history || exists e :: Awaits(id, allowed, d.phase, e) && h == d.history + [e]
  {
    assert Abandon(id, allowed, d, NotDone).history == d.history;
    forall e | Awaits(id, allowed, d.phase, e)
      ensures Abandon(id, allowed, d, Done).history == d.history + [e]
    {
    }
  }
}
