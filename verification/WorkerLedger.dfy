/**
 The worker's books beside a log of what happened. The log alone says which rounds saw a
 failure while they were open and since when the failure window runs; the books always agree.
 */
module WorkerLedger {
  import opened Wrappers
  import opened WorkerBook

  datatype Event = Opened(round: nat) | AttemptFailed(round: nat) | Caught(at: real) | SettledAt(round: nat)

  datatype Ledger = Ledger(book: Book<nat>, log: seq<Event>)

  // ---- what the log says ----

  /** Since round `r` opened, a persistence failure was caught or one of its attempts failed. */
  predicate SawFailure(log: seq<Event>, r: nat) {
    if log == [] then false
    else
      var e, front := log[|log| - 1], log[..|log| - 1];
      FailureFor(e, r) || (e != Opened(r) && SawFailure(front, r))
  }

  predicate FailureFor(e: Event, r: nat) { e.Caught? || e == AttemptFailed(r) }

  /** The failure window: its start, and the failures caught in it. */
  datatype Epoch = Epoch(since: Option<real>, failures: nat)

  const CALM := Epoch(None, 0)

  function Catch(w: Epoch, at: real): Epoch {
    Epoch(if w.since.Some? then w.since else Some(at), w.failures + 1)
  }

  /** The window after the log. A settling round that saw no failure ends it. */
  function Window(log: seq<Event>): (w: Epoch)
    ensures w.since.Some? <==> w.failures > 0
  {
    if log == [] then CALM
    else
      var e, front := log[|log| - 1], log[..|log| - 1];
      if e.Caught? then Catch(Window(front), e.at)
      else if e.SettledAt? && !SawFailure(front, e.round) then CALM
      else Window(front)
  }

  predicate FailureBehind(log: seq<Event>, r: nat, i: nat)
    requires i < |log|
  {
    FailureFor(log[i], r) && Opened(r) !in log[i + 1..]
  }

  lemma BehindFront(log: seq<Event>, r: nat, i: nat)
    requires i < |log| - 1
    ensures FailureBehind(log, r, i) <==> FailureBehind(log[..|log| - 1], r, i) && log[|log| - 1] != Opened(r)
  {
  }

  /** Seeing a failure means: some failure, and no opening of the round behind it. */
  lemma {:induction false} SawFailureIff(log: seq<Event>, r: nat)
    ensures SawFailure(log, r) <==> exists i :: 0 <= i < |log| && FailureBehind(log, r, i)
    decreases |log|
  {
    if log != [] {
      var n := |log| - 1;
      SawFailureIff(log[..n], r);
      forall i | 0 <= i < n
        ensures FailureBehind(log, r, i) <==> FailureBehind(log[..n], r, i) && log[n] != Opened(r)
      {
        BehindFront(log, r, i);
      }
      assert log[n + 1..] == [];
      assert FailureBehind(log, r, n) <==> FailureFor(log[n], r);
    }
  }

  /** A round settles at place `j` of the log that saw no failure. */
  predicate CleanSettle(log: seq<Event>, j: nat)
    requires j < |log|
  {
    log[j].SettledAt? && !SawFailure(log[..j], log[j].round)
  }

  /** An open window started with a caught failure behind which no clean round settled, and
      every earlier failure was cleared by a clean round in between. */
  lemma {:induction false} WindowStart(log: seq<Event>) returns (k: nat)
    requires Window(log).since.Some?
    ensures k < |log| && log[k] == Caught(Window(log).since.value)
    ensures forall j :: k <= j < |log| ==> !CleanSettle(log, j)
    ensures Window(log[..k]) == CALM
    decreases |log|
  {
    var n := |log| - 1;
    var front := log[..n];
    if log[n].Caught? && Window(front).since.None? {
      k := n;
    } else {
      k := WindowStart(front);
      assert front[..k] == log[..k];
      forall j | k <= j < |log|
        ensures !CleanSettle(log, j)
      {
        if j < n {
          assert front[..j] == log[..j];
          assert !CleanSettle(front, j);
        }
      }
    }
  }

  /** A closed window means that nothing was caught since the last clean settlement. */
  lemma {:induction false} WindowClosed(log: seq<Event>, i: nat)
    requires Window(log).since.None? && i < |log| && log[i].Caught?
    ensures exists j :: i < j < |log| && CleanSettle(log, j)
    decreases |log|
  {
    var n := |log| - 1;
    var front := log[..n];
    if log[n].SettledAt? && !SawFailure(front, log[n].round) {
      assert CleanSettle(log, n);
    } else {
      WindowClosed(front, i);
      var j :| i < j < n && CleanSettle(front, j);
      assert front[..j] == log[..j];
      assert CleanSettle(log, j);
    }
  }

  // ---- logged bookkeeping ----

  function LogPop(l: Ledger, t: nat, o: Outcome): Ledger
    requires Flying(l.book.inFlight, t) && RoundOf(l.book.inFlight, t) in l.book.info
  {
    Ledger(Pop(l.book, t, o), if Failed(o) then l.log + [AttemptFailed(RoundOf(l.book.inFlight, t))] else l.log)
  }

  function LogPopAll(l: Ledger, fs: seq<Flight<nat>>, done: map<nat, Outcome>): (n: Ledger)
    requires Sound(l.book) && Poppable(l.book, fs, done)
    ensures n.book == PopAll(l.book, fs, done)
    decreases |fs|
  {
    if fs == [] then l
    else
      PopKeepsPoppable(l.book, fs, done);
      LogPopAll(LogPop(l, fs[0].task, done[fs[0].task]), fs[1..], done)
  }

  function LogSettle(l: Ledger, r: nat): (n: Ledger)
    ensures n.book == Settle(l.book, r)
  {
    if Closable(l.book, r) then Ledger(Settle(l.book, r), l.log + [SettledAt(r)]) else l
  }

  function LogSettleAll(l: Ledger, rs: seq<nat>): (n: Ledger)
    ensures n.book == SettleAll(l.book, rs)
    decreases |rs|
  {
    if rs == [] then l else LogSettleAll(LogSettle(l, rs[0]), rs[1..])
  }

  function LogReap(l: Ledger, done: map<nat, Outcome>): (n: Ledger)
    requires Sound(l.book)
    ensures n.book == Reap(l.book, done)
  {
    var fs := Finished(l.book.inFlight, done);
    FinishedDistinct(l.book.inFlight, done);
    LogSettleAll(LogPopAll(l, fs, done), RoundsOf(fs))
  }

  function LogOpen(l: Ledger, r: nat): Ledger {
    Ledger(Open(l.book, r), l.log + [Opened(r)])
  }

  function LogFinish(l: Ledger, r: nat): (n: Ledger)
    requires r in l.book.info
    ensures n.book == FinishDispatch(l.book, r)
  {
    LogSettle(Ledger(l.book.(info := l.book.info[r := l.book.info[r].(dispatched := true)]), l.log), r)
  }

  /** The handler: the failure is caught first, then the round it ended may settle. */
  function LogNoted(l: Ledger, r: nat, now: real): (n: Ledger)
    requires r in l.book.info
    ensures n.book == Noted(l.book, r, now)
  {
    var soiled := l.book.(info := Soiled(l.book.info, l.book.rounds));
    var over := LogFinish(Ledger(soiled, l.log + [Caught(now)]), r);
    Ledger(over.book.(since := Some(Since(over.book, now))), over.log)
  }

  // ---- the books agree with the log ----

  predicate DistinctRounds(rs: seq<nat>) { forall i, j :: 0 <= i < j < |rs| ==> rs[i] != rs[j] }

  /** Attempts are where they fly, and flights are in open rounds. */
  predicate Consistent(b: Book<nat>) {
    && Sound(b)
    && (forall r :: r in b.info ==> b.info[r].attempts == TasksIn(b.inFlight, r))
    && DistinctRounds(b.rounds)
    && (forall r :: r in b.rounds ==> r in b.info)
    && (forall f :: f in b.inFlight ==> f.round in b.rounds)
  }

  predicate FlagsAgree(l: Ledger) {
    forall r :: r in l.book.rounds && r in l.book.info ==> (l.book.info[r].dirty <==> SawFailure(l.log, r))
  }

  predicate WindowAgrees(l: Ledger) {
    l.book.since == Window(l.log).since && l.book.failures == Window(l.log).failures
  }

  predicate Agrees(l: Ledger) { Tracked(l) && WindowAgrees(l) }

  /** Among the open rounds, only those of `rs` may be both dispatched and empty. */
  predicate ClosableWithin(b: Book<nat>, rs: set<nat>) {
    forall r :: r in b.rounds && Closable(b, r) ==> r in rs
  }

  /** All but the failure window. */
  predicate Tracked(l: Ledger) { Consistent(l.book) && FlagsAgree(l) }
}
