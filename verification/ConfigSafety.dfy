/**
 Every step of every operation keeps the invariant of the configuration service.
 */
module ConfigSafety {
  import opened ConfigResources
  import opened ConfigProtocol

  lemma StoryAppend(h: seq<Entry>, e: Entry, i: nat)
    ensures Story(h + [e], i) == Story(h, i) + (if e.op == i then [e] else [])
  {
  }

  lemma {:induction false} StoryNone(h: seq<Entry>, i: nat)
    requires forall k :: 0 <= k < |h| ==> h[k].op < i
    ensures Story(h, i) == []
  {
    if h != [] {
      StoryNone(h[..|h| - 1], i);
    }
  }

  /** What a request makes of a file of its domain is again a file of that domain. */
  lemma NewContentTyped(x: Syntax, f: File, q: Request, g: nat)
    requires Typed(x, DomainOf(q), f) && NewContent(x, f, q).Ok?
    ensures Typed(x, DomainOf(q), Stored(g, NewContent(x, f, q).value))
  {
  }

  // ---- the operation that moves ----

  lemma ArrivedFits(x: Syntax, i: nat, o: Op, d: Desk, effect: Effect)
    requires o.phase == d.phase == Arrived && Story(d.history, i) == []
    requires Typed(x, DomainOf(o.request), d.files.At(DomainOf(o.request)))
    ensures var n := Advance(x, i, o.request, o.allowed, d, effect);
            StoryFits(x, i, o.(phase := n.phase), Story(n.history, i))
  {
    StoryAppend(d.history, Denied(i), i);
  }

  lemma QueuedFits(x: Syntax, i: nat, o: Op, d: Desk, effect: Effect)
    requires o.phase == d.phase == Queued
    requires StoryFits(x, i, o, Story(d.history, i))
    requires Typed(x, DomainOf(o.request), d.files.At(DomainOf(o.request)))
    ensures var n := Advance(x, i, o.request, o.allowed, d, effect);
            StoryFits(x, i, o.(phase := n.phase), Story(n.history, i))
  {
  }

  /** An operation that is told no result may have any partial record. */
  lemma PartialFits(x: Syntax, i: nat, o: Op, p: Phase, s: seq<Entry>)
    requires Partial(x, i, o, s) && (p == Answered(Unavailable) || p == Answered(Cancelled))
    ensures StoryFits(x, i, o.(phase := p), s)
  {
  }

  lemma StartPartial(x: Syntax, i: nat, o: Op, s: seq<Entry>)
    requires o.allowed && (s == [] || s == [Started(i)])
    ensures Partial(x, i, o, s)
  {
    assert Opening(x, i, o.request, [Started(i)]);
  }

  lemma StartingFits(x: Syntax, i: nat, o: Op, d: Desk, effect: Effect)
    requires o.phase == d.phase == Starting
    requires StoryFits(x, i, o, Story(d.history, i))
    requires Typed(x, DomainOf(o.request), d.files.At(DomainOf(o.request)))
    ensures var n := Advance(x, i, o.request, o.allowed, d, effect);
            StoryFits(x, i, o.(phase := n.phase), Story(n.history, i))
  {
    var n := Advance(x, i, o.request, o.allowed, d, effect);
    StoryAppend(d.history, Started(i), i);
    if effect != Done {
      StartPartial(x, i, o, Story(n.history, i));
      PartialFits(x, i, o, n.phase, Story(n.history, i));
    }
  }

  lemma ReadingFits(x: Syntax, i: nat, o: Op, d: Desk, effect: Effect)
    requires o.phase == d.phase == Reading
    requires StoryFits(x, i, o, Story(d.history, i))
    requires Typed(x, DomainOf(o.request), d.files.At(DomainOf(o.request)))
    ensures var n := Advance(x, i, o.request, o.allowed, d, effect);
            && StoryFits(x, i, o.(phase := n.phase), Story(n.history, i))
            && (n.phase.Writing? ==> n.phase.before == n.files.At(DomainOf(o.request)))
  {
  }

  lemma WritingFits(x: Syntax, i: nat, o: Op, d: Desk, effect: Effect)
    requires o.phase == d.phase && d.phase.Writing?
    requires StoryFits(x, i, o, Story(d.history, i))
    requires Typed(x, DomainOf(o.request), d.files.At(DomainOf(o.request)))
    ensures var n := Advance(x, i, o.request, o.allowed, d, effect);
            StoryFits(x, i, o.(phase := n.phase), Story(n.history, i))
  {
    StoryAppend(d.history, Wrote(i, DomainOf(o.request), d.phase.before, d.phase.after), i);
  }

  lemma ClosingStepFits(x: Syntax, i: nat, o: Op, d: Desk, effect: Effect)
    requires o.phase == d.phase && d.phase.Closing?
    requires StoryFits(x, i, o, Story(d.history, i))
    requires Typed(x, DomainOf(o.request), d.files.At(DomainOf(o.request)))
    ensures var n := Advance(x, i, o.request, o.allowed, d, effect);
            StoryFits(x, i, o.(phase := n.phase), Story(n.history, i))
  {
    var n := Advance(x, i, o.request, o.allowed, d, effect);
    var s, verdict, answer := Story(d.history, i), d.phase.verdict, d.phase.answer;
    StoryAppend(d.history, Terminal(i, verdict), i);
    if effect == Done {
      ToldFits(x, i, o, s, verdict, answer);
    } else {
      ClosingPartial(x, i, o, s, verdict, answer);
      PartialFits(x, i, o, n.phase, Story(n.history, i));
    }
  }

  /** With the outcome on record the answer stands. */
  lemma ToldFits(x: Syntax, i: nat, o: Op, s: seq<Entry>, verdict: Verdict, answer: Answer)
    requires o.allowed && Opening(x, i, o.request, s) && ClosingFits(i, verdict, answer, s)
    ensures StoryFits(x, i, o.(phase := Answered(answer)), s + [Terminal(i, verdict)])
  {
    var whole := s + [Terminal(i, verdict)];
    assert whole[..|whole| - 1] == s && whole[|whole| - 1] == Terminal(i, verdict);
  }

  lemma AdvanceFits(x: Syntax, i: nat, o: Op, d: Desk, effect: Effect)
    requires o.phase == d.phase && StoryFits(x, i, o, Story(d.history, i))
    requires Typed(x, DomainOf(o.request), d.files.At(DomainOf(o.request)))
    ensures var n := Advance(x, i, o.request, o.allowed, d, effect);
            && StoryFits(x, i, o.(phase := n.phase), Story(n.history, i))
            && (n.phase.Writing? ==> n.phase.before == n.files.At(DomainOf(o.request)))
  {
    match d.phase
    case Arrived => ArrivedFits(x, i, o, d, effect);
    case Queued => QueuedFits(x, i, o, d, effect);
    case Starting => StartingFits(x, i, o, d, effect);
    case Reading => ReadingFits(x, i, o, d, effect);
    case Writing(_, _) => WritingFits(x, i, o, d, effect);
    case Closing(_, _) => ClosingStepFits(x, i, o, d, effect);
    case Answered(_) =>
  }

  /** A step adds at most one entry, of its own operation, and writes at most its own file. */
  lemma AdvanceFrame(x: Syntax, i: nat, o: Op, d: Desk, effect: Effect)
    requires o.phase == d.phase && Typed(x, DomainOf(o.request), d.files.At(DomainOf(o.request)))
    ensures var n := Advance(x, i, o.request, o.allowed, d, effect);
            && (n.history == d.history || exists e: Entry :: e.op == i && n.history == d.history + [e])
            && (n.files != d.files ==> d.phase.Writing?)
  {
  }

  lemma AdvanceTyped(x: Syntax, i: nat, o: Op, d: Desk, effect: Effect)
    requires o.phase == d.phase && AllTyped(x, d.files) && StoryFits(x, i, o, Story(d.history, i))
    ensures AllTyped(x, Advance(x, i, o.request, o.allowed, d, effect).files)
  {
    if d.phase.Writing? {
      NewContentTyped(x, d.phase.before, o.request, Generation(d.phase.after));
    }
  }

  // ---- the operation that is cancelled ----

  lemma AbandonFits(x: Syntax, i: nat, o: Op, d: Desk, effect: Effect)
    requires o.phase == d.phase && StoryFits(x, i, o, Story(d.history, i))
    requires !d.phase.Writing? && !d.phase.Answered?
    ensures Partial(x, i, o, Story(Abandon(i, o.allowed, d, effect).history, i))
  {
    if d.phase.Arrived? {
      StoryAppend(d.history, Denied(i), i);
    } else if d.phase.Starting? {
      StartingLeft(x, i, o, d.history, effect);
    } else if d.phase.Closing? {
      ClosingLeft(x, i, o, d, d.phase.verdict, d.phase.answer, effect);
    } else {
      StartPartial(x, i, o, Story(d.history, i));
    }
  }

  lemma StartingLeft(x: Syntax, i: nat, o: Op, h: seq<Entry>, effect: Effect)
    requires o.allowed && Story(h, i) == []
    ensures Partial(x, i, o, Story(Record(Desk(Starting, Files(Missing, Missing, Missing), h), Started(i), effect), i))
  {
    StoryAppend(h, Started(i), i);
    StartPartial(x, i, o, Story(h, i));
    StartPartial(x, i, o, [Started(i)]);
  }

  lemma ClosingLeft(x: Syntax, i: nat, o: Op, d: Desk, verdict: Verdict, answer: Answer, effect: Effect)
    requires o.allowed && Opening(x, i, o.request, Story(d.history, i))
    requires ClosingFits(i, verdict, answer, Story(d.history, i))
    ensures Partial(x, i, o, Story(Record(d, Terminal(i, verdict), effect), i))
  {
    StoryAppend(d.history, Terminal(i, verdict), i);
    ClosingPartial(x, i, o, Story(d.history, i), verdict, answer);
  }

  lemma ClosingPartial(x: Syntax, i: nat, o: Op, s: seq<Entry>, verdict: Verdict, answer: Answer)
    requires o.allowed && Opening(x, i, o.request, s) && ClosingFits(i, verdict, answer, s)
    ensures Partial(x, i, o, s) && Partial(x, i, o, s + [Terminal(i, verdict)])
  {
    var whole := s + [Terminal(i, verdict)];
    assert whole[..|whole| - 1] == s && whole[|whole| - 1] == Terminal(i, verdict);
  }

  /** A cancellation adds at most one entry, of its own operation, and writes no file. */
  lemma AbandonFrame(i: nat, allowed: bool, d: Desk, effect: Effect)
    requires !d.phase.Writing? && !d.phase.Answered?
    ensures var n := Abandon(i, allowed, d, effect);
            && n.files == d.files
            && (n.history == d.history
                || exists e: Entry :: e.op == i && !e.Wrote? && n.history == d.history + [e])
  {
  }

  // ---- the system ----

  /** The other operations' stories do not change. */
  lemma SettledStories(x: Syntax, s: System, i: nat, d: Desk)
    requires StoriesFit(x, s) && i < |s.ops|
    requires d.history == s.history || exists e: Entry :: e.op == i && d.history == s.history + [e]
    requires StoryFits(x, i, s.ops[i].(phase := d.phase), Story(d.history, i))
    ensures StoriesFit(x, Settled(s, i, d))
  {
    var n := Settled(s, i, d);
    if d.history != s.history {
      var e: Entry :| e.op == i && d.history == s.history + [e];
      forall j | 0 <= j < |n.ops| && j != i
        ensures Story(n.history, j) == Story(s.history, j)
      {
        StoryAppend(s.history, e, j);
      }
    }
  }

  lemma MoveKeepsStories(x: Syntax, s: System, i: nat, effect: Effect)
    requires AllTyped(x, s.files) && StoriesFit(x, s) && Enabled(s, Move(i, effect))
    ensures StoriesFit(x, Apply(x, s, Move(i, effect)))
  {
    var o := s.ops[i];
    var d := Desk(o.phase, s.files, s.history);
    AdvanceFits(x, i, o, d, effect);
    AdvanceFrame(x, i, o, d, effect);
    SettledStories(x, Noted(s, i), i, Moved(x, s, i, effect));
  }

  /** An operation outside the locked part enters it only while nobody is inside. */
  lemma MoveKeepsLock(x: Syntax, s: System, i: nat, effect: Effect)
    requires Sound(x, s) && Enabled(s, Move(i, effect))
    ensures LockHeld(Apply(x, s, Move(i, effect)))
  {
  }

  lemma CancelKeepsStories(x: Syntax, s: System, i: nat, effect: Effect)
    requires AllTyped(x, s.files) && StoriesFit(x, s) && Enabled(s, Cancel(i, effect))
    ensures StoriesFit(x, Apply(x, s, Cancel(i, effect)))
  {
    var o := s.ops[i];
    var d := Desk(o.phase, s.files, s.history);
    var n := Abandon(i, o.allowed, d, effect);
    AbandonFits(x, i, o, d, effect);
    PartialFits(x, i, o, n.phase, Story(n.history, i));
    AbandonFrame(i, o.allowed, d, effect);
    SettledStories(x, s, i, n);
  }

  lemma ArriveKeepsStories(x: Syntax, s: System, q: Request, allowed: bool)
    requires AllTyped(x, s.files) && StoriesFit(x, s)
    ensures StoriesFit(x, Apply(x, s, Arrive(q, allowed)))
  {
    var n := Apply(x, s, Arrive(q, allowed));
    StoryNone(s.history, |s.ops|);
    forall i | 0 <= i < |n.ops|
      ensures StoryFits(x, i, n.ops[i], Story(n.history, i))
    {
      if i < |s.ops| {
        assert n.ops[i] == s.ops[i];
      }
    }
  }

  // ---- writes that fly ----

  /** A step of operation `i` leaves the writes of others in the air. */
  lemma StillFlies(x: Syntax, s: System, i: nat, d: Desk, e: Entry)
    requires Flies(x, s, e) && i < |s.ops| && i != e.op
    requires d.history == s.history || exists t: Entry :: t.op == i && d.history == s.history + [t]
    ensures Flies(x, Settled(s, i, d), e)
  {
    if d.history != s.history {
      var t: Entry :| t.op == i && d.history == s.history + [t];
      StoryAppend(s.history, t, e.op);
    }
  }

  /** An operation that has not been answered has no write in the air, so its steps keep all of them. */
  lemma StepKeepsFlying(x: Syntax, s: System, i: nat, d: Desk)
    requires FlyingFit(x, s) && i < |s.ops| && !s.ops[i].phase.Answered?
    requires d.history == s.history || exists t: Entry :: t.op == i && d.history == s.history + [t]
    ensures FlyingFit(x, Settled(s, i, d))
  {
    forall k | 0 <= k < |s.flying|
      ensures Flies(x, Settled(s, i, d), s.flying[k])
    {
      StillFlies(x, s, i, d, s.flying[k]);
    }
  }

  lemma NotedFits(x: Syntax, s: System, i: nat)
    requires i < |s.ops|
    ensures FlyingFit(x, s) ==> FlyingFit(x, Noted(s, i))
    ensures forall e :: Flies(x, s, e) ==> Flies(x, Noted(s, i), e)
  {
  }

  lemma MoveKeepsFlying(x: Syntax, s: System, i: nat, effect: Effect)
    requires Sound(x, s) && Enabled(s, Move(i, effect))
    ensures FlyingFit(x, Apply(x, s, Move(i, effect)))
  {
    NotedFits(x, s, i);
    AdvanceFrame(x, i, s.ops[i], Desk(s.ops[i].phase, s.files, s.history), effect);
    StepKeepsFlying(x, Noted(s, i), i, Moved(x, s, i, effect));
  }

  lemma CancelKeepsFlying(x: Syntax, s: System, i: nat, effect: Effect)
    requires Sound(x, s) && Enabled(s, Cancel(i, effect))
    ensures FlyingFit(x, Apply(x, s, Cancel(i, effect)))
  {
    var d := Desk(s.ops[i].phase, s.files, s.history);
    AbandonFrame(i, s.ops[i].allowed, d, effect);
    StepKeepsFlying(x, s, i, Abandon(i, s.ops[i].allowed, d, effect));
  }

  lemma CutWriteSound(x: Syntax, s: System, i: nat)
    requires Sound(x, s) && Enabled(s, CutWrite(i))
    ensures Sound(x, Apply(x, s, CutWrite(i)))
  {
    var d := Desk(Answered(Cancelled), s.files, s.history);
    StartPartial(x, i, s.ops[i], Story(s.history, i));
    PartialFits(x, i, s.ops[i], d.phase, Story(s.history, i));
    SettledStories(x, s, i, d);
    StepKeepsFlying(x, s, i, d);
  }

  lemma LandKeepsFlying(x: Syntax, s: System, k: nat, effect: Effect)
    requires FlyingFit(x, s) && Enabled(s, Land(k, effect))
    ensures FlyingFit(x, LandAt(s, k, effect))
  {
    var e, n := s.flying[k], LandAt(s, k, effect);
    forall m | 0 <= m < |s.flying| && m != k
      ensures Flies(x, n, s.flying[m])
    {
      OtherFlies(x, s, e, effect, s.flying[m]);
    }
    assert forall m :: 0 <= m < |n.flying| ==> n.flying[m] == s.flying[if m < k then m else m + 1];
  }

  lemma LandSound(x: Syntax, s: System, k: nat, effect: Effect)
    requires Sound(x, s) && Enabled(s, Land(k, effect))
    ensures Sound(x, Apply(x, s, Land(k, effect)))
  {
    LandKeepsFlying(x, s, k, effect);
    if effect != NotDone {
      LandedStories(x, s, s.flying[k], effect);
      LandedTyped(x, s, s.flying[k], effect);
    }
  }

  lemma LandedTyped(x: Syntax, s: System, e: Entry, effect: Effect)
    requires AllTyped(x, s.files) && Flies(x, s, e)
    ensures AllTyped(x, Landed(s, e, effect).files)
  {
    NewContentTyped(x, e.before, s.ops[e.op].request, Generation(e.after));
  }

  lemma OtherFlies(x: Syntax, s: System, e: Entry, effect: Effect, other: Entry)
    requires e.Wrote? && Flies(x, s, other) && e.op != other.op
    ensures Flies(x, Landed(s, e, effect), other)
  {
    StoryAppend(s.history, e, other.op);
  }

  lemma LandedStories(x: Syntax, s: System, e: Entry, effect: Effect)
    requires Sound(x, s) && Flies(x, s, e) && effect != NotDone
    ensures StoriesFit(x, Landed(s, e, effect))
  {
    var n, o := Landed(s, e, effect), s.ops[e.op];
    forall j | 0 <= j < |n.ops|
      ensures StoryFits(x, j, n.ops[j], Story(n.history, j))
    {
      StoryAppend(s.history, e, j);
      if j == e.op {
        assert Opening(x, j, o.request, [Started(j), e]);
        PartialFits(x, j, o, o.phase, [Started(j), e]);
      }
    }
  }

  /** Every step keeps types, lock, records and the writes in the air. */
  lemma StepSound(x: Syntax, s: System, a: Action)
    requires Sound(x, s) && Enabled(s, a)
    ensures Sound(x, Apply(x, s, a))
  {
    match a
    case Arrive(q, allowed) => ArriveKeepsStories(x, s, q, allowed);
    case Cancel(i, effect) =>
      CancelKeepsStories(x, s, i, effect);
      CancelKeepsFlying(x, s, i, effect);
    case Move(i, effect) =>
      MoveKeepsStories(x, s, i, effect);
      MoveKeepsLock(x, s, i, effect);
      MoveKeepsFlying(x, s, i, effect);
      AdvanceTyped(x, i, s.ops[i], Desk(s.ops[i].phase, s.files, s.history), effect);
    case CutWrite(i) => CutWriteSound(x, s, i);
    case Land(k, effect) => LandSound(x, s, k, effect);
  }

  // ---- reads ----

  /** An entry more changes nothing of what was read. */
  lemma ReadKept(first: Files, h: seq<Entry>, n: seq<Entry>, seen: map<nat, nat>, i: nat, d: Domain, before: File)
    requires ReadFrom(first, h, seen, i, d, before) && h <= n
    ensures ReadFrom(first, n, seen, i, d, before)
  {
    assert n[..seen[i]] == h[..seen[i]];
  }

  /** One more entry, which comes behind its read if it is a write. */
  lemma WritesReadAppend(first: Files, h: seq<Entry>, seen: map<nat, nat>, e: Entry)
    requires WritesRead(first, h, seen)
    requires e.Wrote? ==> ReadFrom(first, h, seen, e.op, e.domain, e.before)
    ensures WritesRead(first, h + [e], seen)
  {
    var n := h + [e];
    forall k | 0 <= k < |n| && n[k].Wrote?
      ensures ReadFrom(first, n, seen, n[k].op, n[k].domain, n[k].before) && seen[n[k].op] <= k
    {
      ReadKept(first, h, n, seen, n[k].op, n[k].domain, n[k].before);
    }
  }

  lemma {:induction false} WriteIsInStory(h: seq<Entry>, k: nat)
    requires k < |h|
    ensures h[k] in Story(h, h[k].op)
  {
    if k < |h| - 1 {
      WriteIsInStory(h[..|h| - 1], k);
    }
  }

  /** An operation that still has to read has not written. */
  lemma ReaderHasNotWritten(x: Syntax, s: System, i: nat)
    requires Sound(x, s) && i < |s.ops| && s.ops[i].phase.Reading?
    ensures forall k :: 0 <= k < |s.history| && s.history[k].Wrote? ==> s.history[k].op != i
  {
    forall k | 0 <= k < |s.history| && s.history[k].Wrote?
      ensures s.history[k].op != i
    {
      WriteIsInStory(s.history, k);
      assert StoryFits(x, i, s.ops[i], Story(s.history, i));
    }
  }

  /** The read itself: what it finds is what the writes so far have left. */
  lemma ReadingKeepsReads(x: Syntax, first: Files, s: System, i: nat, effect: Effect)
    requires Inv(x, first, s) && Enabled(s, Move(i, effect)) && s.ops[i].phase.Reading?
    ensures var n := Apply(x, s, Move(i, effect));
            WritesRead(first, n.history, n.seen) && PendingRead(first, n)
  {
    var n := Apply(x, s, Move(i, effect));
    ReaderHasNotWritten(x, s, i);
    assert n.history == s.history && s.history[..|s.history|] == s.history;
    forall k | 0 <= k < |n.flying| && n.flying[k].Wrote?
      ensures ReadFrom(first, n.history, n.seen, n.flying[k].op, n.flying[k].domain, n.flying[k].before)
    {
      assert Flies(x, s, s.flying[k]);
    }
  }

  /** At most one entry was added, and no write. */
  ghost predicate Adds(h: seq<Entry>, n: seq<Entry>) { n == h || exists e: Entry :: !e.Wrote? && n == h + [e] }

  /** A step that neither reads nor writes. */
  lemma QuietKeepsReads(first: Files, s: System, n: System)
    requires WritesRead(first, s.history, s.seen) && PendingRead(first, s) && s.files == Replay(first, s.history)
    requires Adds(s.history, n.history) && n.files == s.files && n.seen == s.seen && n.flying == s.flying
    requires forall j :: 0 <= j < |n.ops| && n.ops[j].phase.Writing? ==> j < |s.ops| && n.ops[j] == s.ops[j]
    ensures WritesRead(first, n.history, n.seen) && PendingRead(first, n) && n.files == Replay(first, n.history)
  {
    if n.history != s.history {
      var e: Entry :| !e.Wrote? && n.history == s.history + [e];
      WritesReadAppend(first, s.history, s.seen, e);
    }
    forall j | 0 <= j < |n.ops| && n.ops[j].phase.Writing?
      ensures ReadFrom(first, n.history, n.seen, j, DomainOf(n.ops[j].request), n.ops[j].phase.before)
    {
      ReadKept(first, s.history, n.history, s.seen, j, DomainOf(s.ops[j].request), s.ops[j].phase.before);
    }
    forall k | 0 <= k < |n.flying| && n.flying[k].Wrote?
      ensures ReadFrom(first, n.history, n.seen, n.flying[k].op, n.flying[k].domain, n.flying[k].before)
    {
      var e := s.flying[k];
      ReadKept(first, s.history, n.history, s.seen, e.op, e.domain, e.before);
    }
  }

  /** A write, by its operation or behind its cancellation. */
  lemma WriteKeepsReads(first: Files, s: System, n: System, e: Entry)
    requires WritesRead(first, s.history, s.seen) && PendingRead(first, s) && s.files == Replay(first, s.history)
    requires e.Wrote? && ReadFrom(first, s.history, s.seen, e.op, e.domain, e.before)
    requires n.history == s.history + [e] && n.files == s.files.Put(e.domain, e.after) && n.seen == s.seen
    requires forall j :: 0 <= j < |n.ops| && n.ops[j].phase.Writing? ==> j < |s.ops| && n.ops[j] == s.ops[j]
    requires forall k :: 0 <= k < |n.flying| ==> n.flying[k] in s.flying
    ensures WritesRead(first, n.history, n.seen) && PendingRead(first, n) && n.files == Replay(first, n.history)
  {
    WritesReadAppend(first, s.history, s.seen, e);
    forall j | 0 <= j < |n.ops| && n.ops[j].phase.Writing?
      ensures ReadFrom(first, n.history, n.seen, j, DomainOf(n.ops[j].request), n.ops[j].phase.before)
    {
      ReadKept(first, s.history, n.history, s.seen, j, DomainOf(s.ops[j].request), s.ops[j].phase.before);
    }
    forall k | 0 <= k < |n.flying| && n.flying[k].Wrote?
      ensures ReadFrom(first, n.history, n.seen, n.flying[k].op, n.flying[k].domain, n.flying[k].before)
    {
      var m :| 0 <= m < |s.flying| && s.flying[m] == n.flying[k];
      ReadKept(first, s.history, n.history, s.seen, n.flying[k].op, n.flying[k].domain, n.flying[k].before);
    }
  }

  lemma MoveKeepsReads(x: Syntax, first: Files, s: System, i: nat, effect: Effect)
    requires Inv(x, first, s) && Enabled(s, Move(i, effect))
    ensures var n := Apply(x, s, Move(i, effect));
            && WritesRead(first, n.history, n.seen) && PendingRead(first, n)
            && n.files == Replay(first, n.history)
  {
    var n := Apply(x, s, Move(i, effect));
    if s.ops[i].phase.Reading? {
      ReadingKeepsReads(x, first, s, i, effect);
    } else if s.ops[i].phase.Writing? && effect != NotDone {
      WriteKeepsReads(first, s, n, PendingWrite(s, i));
    } else {
      QuietMove(x, s, i, effect);
      QuietKeepsReads(first, s, n);
    }
  }

  lemma QuietMove(x: Syntax, s: System, i: nat, effect: Effect)
    requires AllTyped(x, s.files) && Enabled(s, Move(i, effect))
    requires !s.ops[i].phase.Reading? && (s.ops[i].phase.Writing? ==> effect == NotDone)
    ensures var n := Apply(x, s, Move(i, effect));
            && Adds(s.history, n.history) && n.files == s.files && n.seen == s.seen && n.flying == s.flying
            && forall j :: 0 <= j < |n.ops| && n.ops[j].phase.Writing? ==> n.ops[j] == s.ops[j]
  {
  }

  lemma CancelKeepsReads(x: Syntax, first: Files, s: System, i: nat, effect: Effect)
    requires Inv(x, first, s) && Enabled(s, Cancel(i, effect))
    ensures var n := Apply(x, s, Cancel(i, effect));
            && WritesRead(first, n.history, n.seen) && PendingRead(first, n)
            && n.files == Replay(first, n.history)
  {
    AbandonFrame(i, s.ops[i].allowed, Desk(s.ops[i].phase, s.files, s.history), effect);
    QuietKeepsReads(first, s, Apply(x, s, Cancel(i, effect)));
  }

  lemma LandKeepsReads(x: Syntax, first: Files, s: System, k: nat, effect: Effect)
    requires Inv(x, first, s) && Enabled(s, Land(k, effect))
    ensures var n := Apply(x, s, Land(k, effect));
            && WritesRead(first, n.history, n.seen) && PendingRead(first, n)
            && n.files == Replay(first, n.history)
  {
    var n := Apply(x, s, Land(k, effect));
    assert forall m :: 0 <= m < |n.flying| ==> n.flying[m] == s.flying[if m < k then m else m + 1];
    if effect != NotDone {
      WriteKeepsReads(first, s, n, s.flying[k]);
    }
  }

  lemma StepKeeps(x: Syntax, first: Files, s: System, a: Action)
    requires Inv(x, first, s) && Enabled(s, a)
    ensures Inv(x, first, Apply(x, s, a))
  {
    StepSound(x, s, a);
    match a
    case Arrive(q, allowed) => QuietKeepsReads(first, s, Apply(x, s, a));
    case Cancel(i, effect) => CancelKeepsReads(x, first, s, i, effect);
    case Move(i, effect) => MoveKeepsReads(x, first, s, i, effect);
    case CutWrite(i) =>
    case Land(k, effect) => LandKeepsReads(x, first, s, k, effect);
  }

  // ---- runs ----

  lemma IdleInv(x: Syntax, first: Files)
    requires AllTyped(x, first)
    ensures Inv(x, first, Idle(first))
  {
  }

  ghost predicate Possible(x: Syntax, first: Files, s: System, acts: seq<Action>)
    requires Inv(x, first, s)
    decreases |acts|
  {
    acts == [] ||
    (Enabled(s, acts[0]) && (StepKeeps(x, first, s, acts[0]); Possible(x, first, Apply(x, s, acts[0]), acts[1..])))
  }

  /** The end of a run. */
  ghost function After(x: Syntax, first: Files, s: System, acts: seq<Action>): (n: System)
    requires Inv(x, first, s) && Possible(x, first, s, acts)
    ensures Inv(x, first, n)
    decreases |acts|
  {
    if acts == [] then s
    else (StepKeeps(x, first, s, acts[0]); After(x, first, Apply(x, s, acts[0]), acts[1..]))
  }

  /** A run from first files to a state. */
  ghost predicate Run(x: Syntax, first: Files, acts: seq<Action>, s: System) {
    AllTyped(x, first) && (IdleInv(x, first);
    Possible(x, first, Idle(first), acts) && s == After(x, first, Idle(first), acts))
  }

  /** One action more. */
  lemma {:induction false} RunOn(x: Syntax, first: Files, s: System, acts: seq<Action>, a: Action)
    requires Inv(x, first, s) && Possible(x, first, s, acts) && Enabled(After(x, first, s, acts), a)
    ensures Possible(x, first, s, acts + [a])
    ensures After(x, first, s, acts + [a]) == Apply(x, After(x, first, s, acts), a)
    decreases |acts|
  {
    if acts == [] {
      StepKeeps(x, first, s, a);
      assert (acts + [a])[1..] == [];
    } else {
      StepKeeps(x, first, s, acts[0]);
      RunOn(x, first, Apply(x, s, acts[0]), acts[1..], a);
      assert (acts + [a])[1..] == acts[1..] + [a];
    }
  }
}
