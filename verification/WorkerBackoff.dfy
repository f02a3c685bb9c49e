/**
 The waits between caught failures: doubled each time, capped, and bounded in number by the
 failure window.
 */
module WorkerBackoff {
  import opened Doubling
  import opened Wrappers
  import opened WorkerBook
  import opened WorkerLedger
  import opened WorkerAgreement
  import opened WorkerMachine

  /** Delays lie between base and cap and never shrink while failures add up. */
  lemma DelaysGrow(l: Limits, m: nat, n: nat)
    requires l.Valid() && m <= n
    ensures l.base <= Delay(l, m) <= Delay(l, n) <= l.cap
  {
    CappedGrows(l.base, l.cap, m, n);
  }

  /** The first wait is the base, each further one twice the one before or the cap. */
  lemma DelayDoubles(l: Limits, n: nat)
    requires l.Valid()
    ensures Delay(l, 0) == l.base
    ensures Delay(l, n + 1) == if 2.0 * Delay(l, n) < l.cap then 2.0 * Delay(l, n) else l.cap
  {
    CappedDoubles(l.base, l.cap, n);
  }

  /** The time that `n` waits take at least. */
  function DelaySum(l: Limits, n: nat): real {
    if n == 0 then 0.0 else DelaySum(l, n - 1) + Delay(l, n - 1)
  }

  lemma {:induction false} SumGrows(l: Limits, m: nat, n: nat)
    requires l.Valid() && m <= n
    ensures DelaySum(l, m) <= DelaySum(l, n)
  {
    if m < n {
      SumGrows(l, m, n - 1);
      DelaysGrow(l, n - 1, n - 1);
    }
  }

  function BaseSum(b: real, n: nat): (r: real)
    ensures r == n as real * b
  {
    if n == 0 then 0.0
    else
      assert n as real * b == (n - 1) as real * b + b by { OneMore((n - 1) as real, b); }
      BaseSum(b, n - 1) + b
  }

  lemma OneMore(k: real, b: real)
    ensures (k + 1.0) * b == k * b + b
  {
  }

  lemma {:induction false} SumAtLeast(l: Limits, n: nat)
    requires l.Valid()
    ensures DelaySum(l, n) >= BaseSum(l.base, n)
  {
    if n > 0 {
      SumAtLeast(l, n - 1);
      DelaysGrow(l, n - 1, n - 1);
    }
  }

  /** The main loop and its dispatcher run: a failure would still be handled. */
  predicate Serving(p: Place) {
    p.Top? || Dispatching(p) || p.Raising? || p.BackingOff? || p.Polling?
  }

  /** The time up to which the waits of the open window are over. */
  function Clock(s: State): real { if s.place.BackingOff? then s.place.deadline else s.now }

  /** Every counted failure but the last was followed by its whole wait within the window. */
  predicate Waited(l: Limits, s: State) {
    var b := s.ledger.book;
    && (Serving(s.place) && b.since.Some? ==> Clock(s) - b.since.value >= DelaySum(l, b.failures))
    && (b.failures > 0 ==> DelaySum(l, b.failures - 1) < l.window)
    && (b.since.None? ==> b.failures == 0)
  }

  /** The window stays as it is or is cleared. */
  predicate Calmer(b: Book<nat>, n: Book<nat>) {
    (n.since == b.since && n.failures == b.failures) || (n.since == None && n.failures == 0)
  }

  lemma {:induction false} SettleAllCalmer(b: Book<nat>, rs: seq<nat>)
    ensures Calmer(b, SettleAll(b, rs))
    decreases |rs|
  {
    if rs != [] {
      SettleAllCalmer(Settle(b, rs[0]), rs[1..]);
    }
  }

  lemma {:induction false} PopAllWindow(b: Book<nat>, fs: seq<Flight<nat>>, done: map<nat, Outcome>)
    requires Sound(b) && Poppable(b, fs, done)
    ensures PopAll(b, fs, done).since == b.since && PopAll(b, fs, done).failures == b.failures
    decreases |fs|
  {
    if fs != [] {
      PopKeepsPoppable(b, fs, done);
      PopAllWindow(Pop(b, fs[0].task, done[fs[0].task]), fs[1..], done);
    }
  }

  lemma ReapCalmer(b: Book<nat>, done: map<nat, Outcome>)
    requires Sound(b)
    ensures Calmer(b, Reap(b, done))
  {
    var fs := Finished(b.inFlight, done);
    FinishedDistinct(b.inFlight, done);
    PopAllWindow(b, fs, done);
    SettleAllCalmer(PopAll(b, fs, done), RoundsOf(fs));
  }

  lemma WaitedCalmer(l: Limits, s: State, n: State)
    requires Waited(l, s) && Calmer(s.ledger.book, n.ledger.book)
    requires Serving(n.place) ==> Serving(s.place) && !s.place.BackingOff? && !n.place.BackingOff?
    requires n.now >= s.now
    ensures Waited(l, n)
  {
  }

  /** A handled failure waits once more than the window has waited before. */
  lemma WaitedHandle(l: Limits, s: State)
    requires l.Valid() && Inv(l, s) && Waited(l, s) && s.place == Raising(Unavailable)
    ensures Waited(l, Apply(l, s, Handle))
  {
    NotedAgrees(s.ledger, s.cur, s.now);
    assert DelaySum(l, s.ledger.book.failures + 1)
        == DelaySum(l, s.ledger.book.failures) + Delay(l, s.ledger.book.failures);
  }

  lemma WaitedReap(l: Limits, s: State, place: Place)
    requires Inv(l, s) && Waited(l, s)
    requires Serving(place) ==> Dispatching(s.place) && !place.BackingOff?
    ensures Waited(l, s.(ledger := LogReap(s.ledger, s.done), place := place))
  {
    ReapCalmer(s.ledger.book, s.done);
    WaitedCalmer(l, s, s.(ledger := LogReap(s.ledger, s.done), place := place));
  }

  lemma WaitedSlot(l: Limits, s: State, a: Action)
    requires Inv(l, s) && Enabled(s, a) && Waited(l, s) && a.TakeSlot?
    ensures Waited(l, Apply(l, s, a))
  {
    SlotShape(l, s);
    WaitedReap(l, s, Apply(l, s, a).place);
  }

  lemma SlotShape(l: Limits, s: State)
    requires Inv(l, s) && Enabled(s, TakeSlot)
    ensures var n := Apply(l, s, TakeSlot);
            n == s.(ledger := LogReap(s.ledger, s.done), place := n.place) && !n.place.BackingOff?
  {
  }

  lemma WaitedDrain(l: Limits, s: State, a: Action)
    requires Inv(l, s) && Enabled(s, a) && Waited(l, s) && a.DrainOver?
    ensures Waited(l, Apply(l, s, a))
  {
    WaitedReap(l, s, Apply(l, s, a).place);
  }

  lemma WaitedClaim(l: Limits, s: State, a: Action)
    requires Inv(l, s) && Enabled(s, a) && Waited(l, s) && (a.Listed? || a.Begun?)
    ensures Waited(l, Apply(l, s, a))
  {
    WaitedCalmer(l, s, Apply(l, s, a));
  }

  lemma WaitedHandler(l: Limits, s: State, a: Action)
    requires l.Valid() && Inv(l, s) && Enabled(s, a) && Waited(l, s) && a.Handle?
    ensures Waited(l, Apply(l, s, a))
  {
    if s.place.error.Unavailable? {
      WaitedHandle(l, s);
    }
  }

  lemma WaitedRest(l: Limits, s: State, a: Action)
    requires Inv(l, s) && Enabled(s, a) && Waited(l, s) && (Quiet(a) || a.StartRound? || a.CancelDone?)
    ensures Waited(l, Apply(l, s, a))
  {
    assert Calmer(s.ledger.book, Apply(l, s, a).ledger.book);
  }

  lemma StepWaits(l: Limits, s: State, a: Action)
    requires l.Valid() && Inv(l, s) && Enabled(s, a) && Waited(l, s)
    ensures Waited(l, Apply(l, s, a))
  {
    if a.TakeSlot? {
      WaitedSlot(l, s, a);
    } else if a.DrainOver? {
      WaitedDrain(l, s, a);
    } else if a.Listed? || a.Begun? {
      WaitedClaim(l, s, a);
    } else if a.Handle? {
      WaitedHandler(l, s, a);
    } else {
      WaitedRest(l, s, a);
    }
  }

  lemma {:induction false} RunWaits(l: Limits, s: State, acts: seq<Action>)
    requires l.Valid() && Inv(l, s) && Waited(l, s) && Possible(l, s, acts)
    ensures Waited(l, After(l, s, acts))
    decreases |acts|
  {
    if acts != [] {
      StepKeeps(l, s, acts[0]);
      StepWaits(l, s, acts[0]);
      RunWaits(l, Apply(l, s, acts[0]), acts[1..]);
    }
  }

  /** In every run, the failures that one window counts are at most any number of waits that
      fills the window; the last failure, the one that stops the worker, adds at most one. */
  lemma FailuresBounded(l: Limits, now: real, acts: seq<Action>, s: State, n: nat)
    requires Run(l, now, acts, s) && DelaySum(l, n) >= l.window
    ensures s.ledger.book.failures <= n
    ensures Window(s.ledger.log).failures <= if Ending(s.place) == Some(WindowExhausted) then n + 1 else n
  {
    RunWaits(l, Start(now), acts);
    if s.ledger.book.failures > n {
      SumGrows(l, n, s.ledger.book.failures - 1);
    }
  }

  /** Such a number of waits exists: as many as base delays fill the window. So the power of two
      in the delay stays bounded. */
  lemma PowersBounded(l: Limits, now: real, acts: seq<Action>, s: State, n: nat)
    requires Run(l, now, acts, s) && BaseSum(l.base, n) >= l.window
    ensures Power2(s.ledger.book.failures) <= Power2(n)
  {
    SumAtLeast(l, n);
    FailuresBounded(l, now, acts, s, n);
    DoubledGrows(1.0, s.ledger.book.failures, n);
    DoubledIsProduct(1.0, n);
    DoubledIsProduct(1.0, s.ledger.book.failures);
  }
}
