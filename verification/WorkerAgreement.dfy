/**
 Every bookkeeping step keeps the books in agreement with the log of what happened.
 */
module WorkerAgreement {
  import opened Wrappers
  import opened WorkerBook
  import opened WorkerLedger

  lemma SawAppend(log: seq<Event>, e: Event, r: nat)
    ensures SawFailure(log + [e], r) <==> FailureFor(e, r) || (e != Opened(r) && SawFailure(log, r))
  {
  }

  lemma WindowAppend(log: seq<Event>, e: Event)
    ensures e.Caught? ==> Window(log + [e]) == Catch(Window(log), e.at)
    ensures e.SettledAt? ==> Window(log + [e]) == if SawFailure(log, e.round) then Window(log) else CALM
    ensures e.Opened? || e.AttemptFailed? ==> Window(log + [e]) == Window(log)
  {
  }

  lemma TasksInLanded(fs: seq<Flight<nat>>, t: nat, r: nat)
    requires Distinct(fs)
    ensures TasksIn(Landed(fs, t), r) == TasksIn(fs, r) - {t}
  {
  }

  lemma OnlyOwnTask(fs: seq<Flight<nat>>, f: Flight<nat>, r: nat)
    requires Distinct(fs) && f in fs && f.round != r
    ensures f.task !in TasksIn(fs, r)
  {
  }

  lemma PopConsistent(b: Book<nat>, t: nat, o: Outcome)
    requires Consistent(b) && Flying(b.inFlight, t)
    ensures RoundOf(b.inFlight, t) in b.info && Consistent(Pop(b, t, o))
    ensures |Pop(b, t, o).inFlight| == |b.inFlight| - 1
  {
    PopSound(b, t, o);
    LandedDistinct(b.inFlight, t);
    var r, n := RoundOf(b.inFlight, t), Pop(b, t, o);
    forall x | x in n.info
      ensures n.info[x].attempts == TasksIn(n.inFlight, x)
    {
      TasksInLanded(b.inFlight, t, x);
      if x != r {
        OnlyOwnTask(b.inFlight, Flight(t, r), x);
      }
    }
  }

  lemma PopTracked(l: Ledger, t: nat, o: Outcome)
    requires Tracked(l) && Flying(l.book.inFlight, t)
    ensures RoundOf(l.book.inFlight, t) in l.book.info
    ensures Tracked(LogPop(l, t, o))
  {
    PopConsistent(l.book, t, o);
    var r, n := RoundOf(l.book.inFlight, t), LogPop(l, t, o);
    if Failed(o) {
      forall x: nat
        ensures SawFailure(n.log, x) == (x == r || SawFailure(l.log, x))
      {
        SawAppend(l.log, AttemptFailed(r), x);
      }
    }
  }

  /** A finished attempt leaves: only its own round may now be ready to close. */
  lemma PopAgrees(l: Ledger, t: nat, o: Outcome, rs: set<nat>)
    requires Agrees(l) && ClosableWithin(l.book, rs) && Flying(l.book.inFlight, t)
    ensures RoundOf(l.book.inFlight, t) in l.book.info
    ensures Agrees(LogPop(l, t, o)) && ClosableWithin(LogPop(l, t, o).book, rs + {RoundOf(l.book.inFlight, t)})
    ensures |LogPop(l, t, o).book.inFlight| == |l.book.inFlight| - 1
  {
    PopTracked(l, t, o);
    PopConsistent(l.book, t, o);
    if Failed(o) {
      WindowAppend(l.log, AttemptFailed(RoundOf(l.book.inFlight, t)));
    }
  }

  function Touched(rs: seq<nat>): set<nat> { set i | 0 <= i < |rs| :: rs[i] }

  lemma TouchedHead(rs: seq<nat>, base: set<nat>)
    requires rs != []
    ensures base + {rs[0]} + Touched(rs[1..]) == base + Touched(rs)
  {
  }

  lemma {:induction false} PopAllAgrees(l: Ledger, fs: seq<Flight<nat>>, done: map<nat, Outcome>, rs: set<nat>)
    requires Agrees(l) && ClosableWithin(l.book, rs) && Poppable(l.book, fs, done)
    ensures Agrees(LogPopAll(l, fs, done))
    ensures ClosableWithin(LogPopAll(l, fs, done).book, rs + Touched(RoundsOf(fs)))
    ensures |LogPopAll(l, fs, done).book.inFlight| == |l.book.inFlight| - |fs|
    decreases |fs|
  {
    if fs != [] {
      var t, o := fs[0].task, done[fs[0].task];
      PopKeepsPoppable(l.book, fs, done);
      PopAgrees(l, t, o, rs);
      PopAllAgrees(LogPop(l, t, o), fs[1..], done, rs + {fs[0].round});
      TouchedHead(RoundsOf(fs), rs);
      assert RoundsOf(fs)[1..] == RoundsOf(fs[1..]);
    }
  }

  lemma {:induction false} RemoveOnce(rs: seq<nat>, r: nat)
    requires DistinctRounds(rs)
    ensures DistinctRounds(Remove(rs, r)) && r !in Remove(rs, r)
    ensures |Remove(rs, r)| == |rs| - (if r in rs then 1 else 0)
  {
    if rs != [] && rs[0] != r {
      RemoveOnce(rs[1..], r);
      assert rs[0] !in rs[1..];
    }
  }

  lemma SettleTracked(l: Ledger, r: nat, rs: set<nat>)
    requires Tracked(l) && ClosableWithin(l.book, rs + {r})
    ensures Tracked(LogSettle(l, r)) && ClosableWithin(LogSettle(l, r).book, rs)
    ensures LogSettle(l, r).book.inFlight == l.book.inFlight
    ensures forall x :: x in LogSettle(l, r).book.rounds ==> x in l.book.rounds
  {
    if Closable(l.book, r) {
      RemoveOnce(l.book.rounds, r);
      var n := LogSettle(l, r);
      assert n.log == l.log + [SettledAt(r)];
      forall x | x in n.book.rounds
        ensures SawFailure(n.log, x) == SawFailure(l.log, x)
      {
        SawAppend(l.log, SettledAt(r), x);
      }
      forall f | f in n.book.inFlight
        ensures f.round in n.book.rounds
      {
        var i :| 0 <= i < |l.book.inFlight| && l.book.inFlight[i] == f;
        assert f.task in TasksIn(l.book.inFlight, f.round);
      }
    }
  }

  /** A round that settles clears the window exactly when it saw no failure. */
  lemma SettleAgrees(l: Ledger, r: nat, rs: set<nat>)
    requires Agrees(l) && ClosableWithin(l.book, rs + {r})
    ensures Agrees(LogSettle(l, r)) && ClosableWithin(LogSettle(l, r).book, rs)
    ensures LogSettle(l, r).book.inFlight == l.book.inFlight
    ensures forall x :: x in LogSettle(l, r).book.rounds ==> x in l.book.rounds
  {
    SettleTracked(l, r, rs);
    if Closable(l.book, r) {
      WindowAppend(l.log, SettledAt(r));
    }
  }

  lemma {:induction false} SettleAllAgrees(l: Ledger, rs: seq<nat>, others: set<nat>)
    requires Agrees(l) && ClosableWithin(l.book, others + Touched(rs))
    ensures Agrees(LogSettleAll(l, rs)) && ClosableWithin(LogSettleAll(l, rs).book, others)
    ensures LogSettleAll(l, rs).book.inFlight == l.book.inFlight
    ensures forall x :: x in LogSettleAll(l, rs).book.rounds ==> x in l.book.rounds
    decreases |rs|
  {
    if rs == [] {
      assert others + Touched(rs) == others;
    } else {
      TouchedHead(rs, others);
      assert others + Touched(rs[1..]) + {rs[0]} == others + Touched(rs);
      SettleAgrees(l, rs[0], others + Touched(rs[1..]));
      SettleAllAgrees(LogSettle(l, rs[0]), rs[1..], others);
    }
  }

  /** After a reap no round is left that should have been closed. */
  lemma ReapAgrees(l: Ledger, done: map<nat, Outcome>)
    requires Agrees(l) && ClosableWithin(l.book, {})
    ensures Agrees(LogReap(l, done)) && ClosableWithin(LogReap(l, done).book, {})
    ensures |LogReap(l, done).book.inFlight| == |l.book.inFlight| - |Finished(l.book.inFlight, done)|
  {
    var fs := Finished(l.book.inFlight, done);
    FinishedDistinct(l.book.inFlight, done);
    PopAllAgrees(l, fs, done, {});
    SettleAllAgrees(LogPopAll(l, fs, done), RoundsOf(fs), {});
  }

  lemma OpenAgrees(l: Ledger, r: nat)
    requires Agrees(l) && ClosableWithin(l.book, {}) && r !in l.book.info
    ensures Agrees(LogOpen(l, r)) && ClosableWithin(LogOpen(l, r).book, {})
  {
    var n := LogOpen(l, r);
    WindowAppend(l.log, Opened(r));
    forall x: nat
      ensures SawFailure(n.log, x) == (x != r && SawFailure(l.log, x))
    {
      SawAppend(l.log, Opened(r), x);
    }
    assert TasksIn(l.book.inFlight, r) == {};
  }

  lemma TasksInAppend(fs: seq<Flight<nat>>, f: Flight<nat>, r: nat)
    ensures TasksIn(fs + [f], r) == TasksIn(fs, r) + (if f.round == r then {f.task} else {})
  {
    var n := fs + [f];
    assert n[|fs|] == f;
    assert forall i :: 0 <= i < |fs| ==> n[i] == fs[i];
  }

  lemma LaunchAgrees(l: Ledger, r: nat, t: nat)
    requires Agrees(l) && ClosableWithin(l.book, {}) && r in l.book.rounds && !Flying(l.book.inFlight, t)
    ensures Agrees(l.(book := Launch(l.book, r, t))) && ClosableWithin(Launch(l.book, r, t), {})
  {
    var n := Launch(l.book, r, t);
    forall x | x in n.info
      ensures n.info[x].attempts == TasksIn(n.inFlight, x)
    {
      TasksInAppend(l.book.inFlight, Flight(t, r), x);
    }
  }

  lemma DispatchedTracked(l: Ledger, r: nat)
    requires Tracked(l) && ClosableWithin(l.book, {}) && r in l.book.info
    ensures var n := l.(book := l.book.(info := l.book.info[r := l.book.info[r].(dispatched := true)]));
            Tracked(n) && ClosableWithin(n.book, {} + {r}) && (WindowAgrees(l) ==> WindowAgrees(n))
  {
  }

  /** The end of a dispatch: the round closes at once when nothing of it is in flight. */
  lemma FinishAgrees(l: Ledger, r: nat)
    requires Agrees(l) && ClosableWithin(l.book, {}) && r in l.book.info
    ensures Agrees(LogFinish(l, r)) && ClosableWithin(LogFinish(l, r).book, {})
    ensures LogFinish(l, r).book.inFlight == l.book.inFlight
    ensures forall x :: x in LogFinish(l, r).book.rounds ==> x in l.book.rounds
  {
    DispatchedTracked(l, r);
    SettleAgrees(l.(book := l.book.(info := l.book.info[r := l.book.info[r].(dispatched := true)])), r, {});
  }

  lemma SoiledTracked(l: Ledger, now: real)
    requires Tracked(l) && ClosableWithin(l.book, {})
    ensures var n := Ledger(l.book.(info := Soiled(l.book.info, l.book.rounds)), l.log + [Caught(now)]);
            Tracked(n) && ClosableWithin(n.book, {})
  {
  }

  /** A caught failure: all but the counter, which the handler raises only when it goes on. */
  lemma NotedAgrees(l: Ledger, r: nat, now: real)
    requires Agrees(l) && ClosableWithin(l.book, {}) && r in l.book.rounds
    ensures var n := LogNoted(l, r, now);
            && Tracked(n) && ClosableWithin(n.book, {})
            && Window(n.log) == Epoch(n.book.since, n.book.failures + 1)
            && n.book.inFlight == l.book.inFlight
            && n.book.failures == l.book.failures
            && n.book.since == Some(Since(l.book, now))
            && (forall x :: x in n.book.rounds ==> x in l.book.rounds)
  {
    SoiledTracked(l, now);
    var soiled := Ledger(l.book.(info := Soiled(l.book.info, l.book.rounds)), l.log + [Caught(now)]);
    DispatchedTracked(soiled, r);
    var ready := soiled.(book := soiled.book.(info := soiled.book.info[r := soiled.book.info[r].(dispatched := true)]));
    SettleTracked(ready, r, {});
    WindowAppend(l.log, Caught(now));
    SawAppend(l.log, Caught(now), r);
    WindowAppend(soiled.log, SettledAt(r));
  }
}
