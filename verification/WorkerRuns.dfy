/**
 What the invariant of the worker machine means for every state of every run.
 */
module WorkerRuns {
  import opened Wrappers
  import opened WorkerBook
  import opened WorkerLedger
  import opened WorkerAgreement
  import opened WorkerMachine
  import opened WorkerOutcomes

  function RoundSet(rs: seq<nat>): set<nat> { set r | r in rs }

  lemma {:induction false} DistinctCount(rs: seq<nat>)
    requires DistinctRounds(rs)
    ensures |RoundSet(rs)| == |rs|
  {
    if rs != [] {
      DistinctCount(rs[1..]);
      assert rs[0] !in rs[1..];
      assert RoundSet(rs) == {rs[0]} + RoundSet(rs[1..]);
    }
  }

  function FlightRounds(fs: seq<Flight<nat>>): set<nat> { set f | f in fs :: f.round }

  lemma {:induction false} FlightRoundsCount(fs: seq<Flight<nat>>)
    ensures |FlightRounds(fs)| <= |fs|
  {
    if fs != [] {
      FlightRoundsCount(fs[1..]);
      assert FlightRounds(fs) == {fs[0].round} + FlightRounds(fs[1..]);
    }
  }

  lemma SubsetCount(a: set<nat>, b: set<nat>)
    requires a <= b
    ensures |a| <= |b|
  {
    assert b == a + (b - a);
  }

  /** Every open round but the current one has an attempt in flight. */
  lemma OpenRoundsFly(l: Limits, s: State)
    requires Inv(l, s) && !s.place.Exited?
    ensures RoundSet(s.ledger.book.rounds) <= FlightRounds(s.ledger.book.inFlight) + {s.cur}
  {
  }

  /** In every state of every run the flights stay within their limit, each round counts exactly
      its own flights, the open rounds number at most one more than the flights, and nothing is in
      flight once the worker has stopped. */
  lemma BooksInEveryRun(l: Limits, now: real, acts: seq<Action>, n: State)
    requires Run(l, now, acts, n)
    ensures var b := n.ledger.book;
            && |b.inFlight| <= l.maxTasks
            && (forall r :: r in b.info ==> b.info[r].attempts == TasksIn(b.inFlight, r))
            && (n.place.Exited? ==> b.inFlight == [])
            && (!n.place.Exited? ==> |b.rounds| <= |b.inFlight| + 1)
            && (!n.place.Exited? ==> forall r :: r in b.rounds ==>
                  r in b.info && !(b.info[r].dispatched && b.info[r].attempts == {}))
  {
    var b := n.ledger.book;
    if !n.place.Exited? {
      OpenRoundsFly(l, n);
      DistinctCount(b.rounds);
      FlightRoundsCount(b.inFlight);
      SubsetCount(RoundSet(b.rounds), FlightRounds(b.inFlight) + {n.cur});
      forall r | r in b.rounds
        ensures r in b.info && !(b.info[r].dispatched && b.info[r].attempts == {})
      {
        assert !Closable(b, r);
      }
    }
  }

  /** With nothing in flight a slot is free at once. */
  lemma FreeSlot(l: Limits, s: State)
    requires l.Valid() && Inv(l, s) && s.ledger.book.inFlight == [] && (s.place.SlotToList? || s.place.SlotToBegin?)
    ensures Apply(l, s, TakeSlot).ledger == s.ledger
    ensures Apply(l, s, TakeSlot).place == if s.place.SlotToList? then Listing else Beginning(s.place.later)
  {
    assert Finished(s.ledger.book.inFlight, s.done) == [];
  }

  /** Once it has been cut off the worker stays so, with what it left in flight, and only a second
      cancellation cuts it off. */
  lemma {:induction false} CutOffIff(l: Limits, s: State, acts: seq<Action>)
    requires l.Valid() && Inv(l, s) && Possible(l, s, acts) && (s.place.Interrupted? ==> s.ledger.book.inFlight != [])
    ensures After(l, s, acts).place.Interrupted? <==> s.place.Interrupted? || AbortAgain in acts
    ensures After(l, s, acts).place.Interrupted? ==> After(l, s, acts).ledger.book.inFlight != []
    decreases |acts|
  {
    if acts != [] {
      var n := Apply(l, s, acts[0]);
      StepKeeps(l, s, acts[0]);
      CutOffStep(l, s, acts[0]);
      CutOffIff(l, n, acts[1..]);
      assert AbortAgain in acts <==> acts[0] == AbortAgain || AbortAgain in acts[1..];
    }
  }

  lemma CutOffStep(l: Limits, s: State, a: Action)
    requires l.Valid() && Inv(l, s) && Enabled(s, a) && (s.place.Interrupted? ==> s.ledger.book.inFlight != [])
    ensures var n := Apply(l, s, a);
            && (n.place.Interrupted? <==> s.place.Interrupted? || a == AbortAgain)
            && (n.place.Interrupted? ==> n.ledger.book.inFlight != [])
  {
    if s.place.Interrupted? {
      assert a.Finish? || a.Tick?;
    } else if a != AbortAgain {
      OnlyAbortAgain(l, s, a);
    }
  }

  lemma OnlyAbortAgain(l: Limits, s: State, a: Action)
    requires l.Valid() && Inv(l, s) && Enabled(s, a) && !s.place.Interrupted? && a != AbortAgain
    ensures !Apply(l, s, a).place.Interrupted?
  {
    if a.DrainOver? {
      assert Apply(l, s, a).place.Cancelling?;
    } else if a.Handle? {
      StepKeeps(l, s, a);
    }
  }

  /** A worker that has left leaves attempts in flight exactly if it was cancelled a second time while it
      awaited its cancelled attempts. */
  lemma LeavesNothingIff(l: Limits, now: real, acts: seq<Action>, n: State)
    requires Run(l, now, acts, n) && (n.place.Exited? || n.place.Interrupted?)
    ensures n.ledger.book.inFlight == [] <==> AbortAgain !in acts
  {
    StartInv(l, now);
    CutOffIff(l, Start(now), acts);
    BooksInEveryRun(l, now, acts, n);
  }

  /** A worker that is cancelled again while it awaits its cancelled attempts leaves with them
      still in flight. */
  lemma CancelledTwice(l: Limits, now: real)
    requires l.Valid()
    ensures exists acts, n :: Run(l, now, acts, n) && n.place == Interrupted(Aborted) && |n.ledger.book.inFlight| == 1
  {
    StartInv(l, now);
    var s0 := Start(now);
    StepKeeps(l, s0, StartRound);
    var s1 := Apply(l, s0, StartRound);
    FreeSlot(l, s1);
    StepKeeps(l, s1, TakeSlot);
    var s2 := Apply(l, s1, TakeSlot);
    StepKeeps(l, s2, Listed(1));
    var s3 := Apply(l, s2, Listed(1));
    FreeSlot(l, s3);
    StepKeeps(l, s3, TakeSlot);
    var s4 := Apply(l, s3, TakeSlot);
    var late := ClaimThenCancel(l, s4);
    RunStep(l, s3, TakeSlot, late);
    RunStep(l, s2, Listed(1), [TakeSlot] + late);
    RunStep(l, s1, TakeSlot, [Listed(1)] + ([TakeSlot] + late));
    var early := [TakeSlot] + ([Listed(1)] + ([TakeSlot] + late));
    RunStep(l, s0, StartRound, early);
    assert Run(l, now, [StartRound] + early, After(l, s4, late));
  }

  /** The last claim of a batch, and two cancellations behind it. */
  lemma ClaimThenCancel(l: Limits, s: State) returns (late: seq<Action>)
    requires l.Valid() && Inv(l, s) && s.place == Beginning(0) && s.ledger.book.inFlight == []
    ensures Possible(l, s, late) && After(l, s, late).place == Interrupted(Aborted)
    ensures |After(l, s, late).ledger.book.inFlight| == 1
  {
    var s1 := Apply(l, s, Begun(true));
    LaunchAgrees(s.ledger, s.cur, s.nextTask);
    FinishAgrees(Launched(s).ledger, s.cur);
    StepKeeps(l, s, Begun(true));
    StepKeeps(l, s1, Abort);
    var s2 := Apply(l, s1, Abort);
    RunStep(l, s2, AbortAgain, []);
    RunStep(l, s1, Abort, [AbortAgain]);
    late := [Begun(true)] + ([Abort] + [AbortAgain]);
    RunStep(l, s, Begun(true), [Abort] + [AbortAgain]);
    assert [AbortAgain] + [] == [AbortAgain];
  }

  /** Only an unavailable store is waited out, and only until the window is over; every other error ends the
      worker. */
  lemma ErrorsEnd(l: Limits, s: State)
    requires l.Valid() && Inv(l, s) && s.place.Raising?
    ensures s.place.error != Unavailable ==> Apply(l, s, Handle).place == Cancelling(Broken(s.place.error))
    ensures s.place.error == Unavailable ==>
              Apply(l, s, Handle).place.BackingOff? || Apply(l, s, Handle).place == Cancelling(WindowExhausted)
  {
  }

  lemma DrainPlace(l: Limits, s: State)
    requires s.place.Draining? && Sound(s.ledger.book)
    ensures var raised := Raised(s.ledger.book.inFlight, s.done);
            Apply(l, s, DrainOver).place
            == Cancelling(if raised.Some? && Serious(raised.value) then Broken(raised.value) else Stopped)
  {
  }

  /** A drain that meets serious outcomes ends the worker with the first of them; without one it ends as
      stopped. */
  lemma DrainEnds(l: Limits, s: State)
    requires l.Valid() && Inv(l, s) && s.place.Draining?
    ensures var fs, n := s.ledger.book.inFlight, Apply(l, s, DrainOver);
            && (NoneSerious(fs, s.done) ==> n.place == Cancelling(Stopped))
            && (forall i: nat :: FirstSerious(fs, s.done, i) ==> n.place == Cancelling(Broken(s.done[fs[i].task])))
  {
    DrainPlace(l, s);
    ReapRaises(s.ledger.book.inFlight, s.done);
  }

  /** In every state of every run the flags and the window say what the log says: an open round
      is dirty exactly when a failure came behind its opening, and when no window is open every
      failure caught so far has a round behind it that settled without having seen one. The worker
      gives up on the store only when two caught failures lie a whole window apart with no such
      round settling since the first. */
  lemma WindowInEveryRun(l: Limits, now: real, acts: seq<Action>, n: State)
    requires Run(l, now, acts, n)
    ensures var b, log := n.ledger.book, n.ledger.log;
            && (forall r :: r in b.rounds && r in b.info ==>
                  (b.info[r].dirty <==> exists i :: 0 <= i < |log| && FailureBehind(log, r, i)))
            && (b.since.None? ==> forall i :: 0 <= i < |log| && log[i].Caught? ==>
                  exists j :: i < j < |log| && CleanSettle(log, j))
            && (b.since.Some? ==> exists k :: 0 <= k < |log| && log[k] == Caught(b.since.value) && OpensWindow(log, k))
            && (Ending(n.place) == Some(WindowExhausted) ==> WindowPassed(l, log))
  {
    var b, log := n.ledger.book, n.ledger.log;
    forall r | r in b.rounds && r in b.info
      ensures b.info[r].dirty <==> exists i :: 0 <= i < |log| && FailureBehind(log, r, i)
    {
      SawFailureIff(log, r);
    }
    if b.since.None? {
      forall i | 0 <= i < |log| && log[i].Caught?
        ensures exists j :: i < j < |log| && CleanSettle(log, j)
      {
        WindowClosed(log, i);
      }
    } else {
      var k := WindowOpener(log);
    }
  }

  /** From place `k` on no round settles without having seen a failure. */
  predicate StaysOpen(log: seq<Event>, k: nat) {
    forall j :: k <= j < |log| ==> !CleanSettle(log, j)
  }

  /** The caught failure that opened the window: every earlier one was followed by a round that
      settled without a failure, and behind this one no such round came. */
  ghost predicate OpensWindow(log: seq<Event>, k: nat)
    requires k < |log|
  {
    && log[k].Caught? && StaysOpen(log, k)
    && forall i :: 0 <= i < k && log[i].Caught? ==> exists j :: i < j < k && CleanSettle(log, j)
  }

  lemma OpensOnce(log: seq<Event>, k: nat, m: nat)
    requires k < |log| && m < |log| && OpensWindow(log, k) && OpensWindow(log, m)
    ensures k == m
  {
  }

  lemma WindowOpener(log: seq<Event>) returns (k: nat)
    requires Window(log).since.Some?
    ensures k < |log| && OpensWindow(log, k) && log[k] == Caught(Window(log).since.value)
  {
    k := WindowStart(log);
    var front := log[..k];
    forall i | 0 <= i < k && log[i].Caught?
      ensures exists j :: i < j < k && CleanSettle(log, j)
    {
      WindowClosed(front, i);
      var j :| i < j < k && CleanSettle(front, j);
      assert front[..j] == log[..j];
      assert CleanSettle(log, j);
    }
  }

  lemma HandleStops(l: Limits, s: State)
    requires Inv(l, s) && s.place == Raising(Unavailable)
    ensures Apply(l, s, Handle).place == Cancelling(WindowExhausted)
        <==> s.now - Since(s.ledger.book, s.now) >= l.window
  {
    NotedAgrees(s.ledger, s.cur, s.now);
  }

  /** Handling a failure stops the worker exactly when the failure that opened the window lies a
      whole window back. */
  lemma FailStopIff(l: Limits, s: State)
    requires l.Valid() && Inv(l, s) && s.place == Raising(Unavailable)
    ensures var log := LogNoted(s.ledger, s.cur, s.now).log;
            Apply(l, s, Handle).place == Cancelling(WindowExhausted) <==>
            exists k :: 0 <= k < |log| && OpensWindow(log, k) && s.now - log[k].at >= l.window
  {
    NotedAgrees(s.ledger, s.cur, s.now);
    HandleStops(l, s);
    var noted := LogNoted(s.ledger, s.cur, s.now);
    var k := WindowOpener(noted.log);
    forall m | 0 <= m < |noted.log| && OpensWindow(noted.log, m)
      ensures m == k
    {
      OpensOnce(noted.log, k, m);
    }
  }
}
