/**
 The worker object: the state its methods update in place between two awaits. Each method is
 tied to the function of `WorkerBook` that says what it does to the books.
 */
module WorkerLoop {
  import opened Wrappers
  import opened WorkerBook

  /** One poll iteration: the batch it listed and the attempts it started. */
  class Round {
    var attempts: set<nat>
    var completed: nat
    var dispatched: bool
    var dirty: bool

    constructor ()
      ensures Info() == FRESH
    {
      attempts, completed, dispatched, dirty := {}, 0, false, false;
    }

    function Info(): RoundInfo
      reads this
    {
      RoundInfo(attempts, completed, dispatched, dirty)
    }

    /** What the pop loop does to the round of a finished attempt. */
    method Leave(task: nat, o: Outcome)
      modifies this
      ensures Info() == Left(old(Info()), task, o)
    {
      attempts := attempts - {task};
      if o.Returned? {
        completed := completed + if o.value then 1 else 0;
      } else if Failed(o) {
        dirty := true;
      }
    }
  }

  class Worker {
    const limits: Limits
    var inFlight: seq<Flight<Round>>
    var rounds: seq<Round>
    var since: Option<real>
    var failures: nat
    ghost var known: set<Round>

    ghost function View(): Book<Round>
      reads this, known
    {
      Book(inFlight, rounds, map r | r in known :: r.Info(), since, failures)
    }

    ghost predicate Valid()
      reads this, known
    {
      Sound(View()) && forall r :: r in rounds ==> r in known
    }

    constructor (limits: Limits)
      ensures Valid() && View() == Book([], [], map[], None, 0) && this.limits == limits
    {
      this.limits := limits;
      inFlight, rounds, since, failures, known := [], [], None, 0, {};
    }

    /** `_settle`. */
    method SettleRound(r: Round)
      requires Valid() && r in known
      modifies this`rounds, this`since, this`failures
      ensures Valid() && View() == Settle(old(View()), r)
    {
      if !r.dispatched || r.attempts != {} || r !in rounds {
        return;
      }
      rounds := Remove(rounds, r);
      if !r.dirty {
        since := None;
        failures := 0;
      }
    }

    /** One finished attempt leaves its round, which counts its result. */
    method PopOne(task: nat, o: Outcome) returns (r: Round)
      requires Valid() && Flying(inFlight, task)
      modifies this`inFlight, known
      ensures Valid() && known == old(known)
      ensures r == RoundOf(old(inFlight), task)
      ensures View() == Pop(old(View()), task, o)
    {
      PopSound(View(), task, o);
      r := RoundOf(inFlight, task);
      ghost var before := View();
      inFlight := Landed(inFlight, task);
      r.Leave(task, o);
      assert View().info == Pop(before, task, o).info;
    }

    /** Step `i` of the pop loop. */
    method PopNext(ghost start: Book<Round>, fs: seq<Flight<Round>>, done: map<nat, Outcome>, i: nat)
      returns (o: Outcome)
      requires Valid() && i < |fs| && Sound(start) && Poppable(start, fs, done)
      requires View() == Popped(start, fs, done, i)
      modifies this`inFlight, known
      ensures Valid() && known == old(known)
      ensures fs[i].task in done && o == done[fs[i].task] && View() == Popped(start, fs, done, i + 1)
    {
      PoppedNext(start, fs, done, i);
      o := done[fs[i].task];
      var r := PopOne(fs[i].task, o);
    }

    /** The first loop of `_reap`: finished attempts leave, the first fatal error is kept. */
    method PopFinished(fs: seq<Flight<Round>>, done: map<nat, Outcome>)
      returns (fatal: Option<Outcome>, transient: bool)
      requires Valid() && Poppable(View(), fs, done)
      modifies this`inFlight, known
      ensures Valid() && known == old(known)
      ensures View() == Popped(old(View()), fs, done, |fs|)
      ensures Kept(fatal, transient) == KeptBefore(fs, done, |fs|)
    {
      ghost var start := View();
      fatal, transient := None, false;
      for i := 0 to |fs|
        invariant Valid()
        invariant View() == Popped(start, fs, done, i)
        invariant Kept(fatal, transient) == KeptBefore(fs, done, i)
      {
        var o := PopNext(start, fs, done, i);
        KeptNext(fs, done, i);
        if o.Unavailable? {
          transient := true;
        } else if Fatal(o) && fatal.None? {
          fatal := Some(o);
        }
      }
    }

    /** `_reap`: pops, settles the touched rounds, and only then raises. */
    method ReapFinished(done: map<nat, Outcome>) returns (raised: Option<Outcome>)
      requires Valid()
      modifies this, known
      ensures Valid() && known == old(known)
      ensures View() == Reap(old(View()), done)
      ensures raised == Raised(Finished(old(inFlight), done), done)
    {
      FinishedDistinct(inFlight, done);
      var fs := Finished(inFlight, done);
      PoppedAll(View(), fs, done);
      var fatal, transient := PopFinished(fs, done);
      SettleTouched(RoundsOf(fs));
      KeptDecides(fs, done);
      raised := if fatal.Some? then fatal else if transient then Some(Unavailable) else None;
    }

    /** `_wait_for_slot`, resumed once for each wake in the list. */
    method WaitForSlot(wakes: seq<map<nat, Outcome>>) returns (slot: Slot)
      requires Valid()
      modifies this, known
      ensures Valid() && known == old(known)
      ensures (View(), slot) == SlotAfter(limits, old(View()), wakes)
    {
      if wakes == [] {
        return Waiting;
      }
      var raised := ReapFinished(wakes[0]);
      if raised.Some? {
        return Failing(raised.value);
      }
      var i := 1;
      while |inFlight| >= limits.maxTasks
        invariant Valid() && known == old(known) && 1 <= i <= |wakes|
        invariant SlotAfter(limits, old(View()), wakes)
               == if |inFlight| < limits.maxTasks then (View(), Granted) else SlotAfter(limits, View(), wakes[i..])
        decreases |wakes| - i
      {
        if i == |wakes| {
          return Waiting;
        }
        assert wakes[i..][1..] == wakes[i + 1..];
        raised := ReapFinished(wakes[i]);
        if raised.Some? {
          return Failing(raised.value);
        }
        i := i + 1;
      }
      return Granted;
    }

    /** The second loop of `_reap`. */
    method SettleTouched(touched: seq<Round>)
      requires Valid() && forall k :: 0 <= k < |touched| ==> touched[k] in known
      modifies this`rounds, this`since, this`failures
      ensures Valid() && View() == SettleAll(old(View()), touched)
    {
      for i := 0 to |touched|
        invariant Valid()
        invariant SettleAll(View(), touched[i..]) == SettleAll(old(View()), touched)
      {
        assert touched[i..][1..] == touched[i + 1..];
        SettleRound(touched[i]);
      }
    }

    /** The head of the main loop: a new round. */
    method OpenRound() returns (r: Round)
      requires Valid()
      modifies this`rounds, this`known
      ensures fresh(r) && known == old(known) + {r}
      ensures Valid() && View() == Open(old(View()), r)
    {
      r := new Round();
      rounds := rounds + [r];
      known := known + {r};
    }

    /** A claimed attempt starts. */
    method LaunchAttempt(r: Round, task: nat)
      requires Valid() && r in known && !Flying(inFlight, task)
      modifies this`inFlight, r
      ensures Valid() && known == old(known)
      ensures View() == Launch(old(View()), r, task)
    {
      inFlight := inFlight + [Flight(task, r)];
      r.attempts := r.attempts + {task};
      assert View().info == Launch(old(View()), r, task).info;
    }

    /** The end of `_dispatch`. */
    method EndDispatch(r: Round)
      requires Valid() && r in known
      modifies this`rounds, this`since, this`failures, r
      ensures Valid() && known == old(known)
      ensures View() == FinishDispatch(old(View()), r)
    {
      r.dispatched := true;
      assert View().info == old(View()).info[r := old(View()).info[r].(dispatched := true)];
      SettleRound(r);
    }

    /** The loop that marks every open round dirty. */
    method SoilRounds()
      requires Valid()
      modifies known
      ensures Valid() && known == old(known)
      ensures View() == old(View()).(info := Soiled(old(View()).info, rounds))
    {
      for i := 0 to |rounds|
        invariant Valid()
        invariant forall r :: r in known ==>
                    r.Info() == if r in rounds[..i] then old(r.Info()).(dirty := true) else old(r.Info())
      {
        rounds[i].dirty := true;
        assert rounds[..i + 1] == rounds[..i] + [rounds[i]];
      }
      assert rounds[..|rounds|] == rounds;
    }

    /** The failure is noted: open rounds are dirty, round `r` is over, the window is open. */
    method NoteFailure(r: Round, now: real)
      requires Valid() && r in known
      modifies this, known
      ensures Valid() && known == old(known) && since.Some?
      ensures View() == Noted(old(View()), r, now)
    {
      SoilRounds();
      EndDispatch(r);
      if since.None? {
        since := Some(now);
      }
    }

    /** The handler of a persistence failure: no delay means that the window is exhausted. */
    method CatchUnavailable(r: Round, now: real) returns (delay: Option<real>)
      requires Valid() && r in known
      modifies this, known
      ensures Valid() && known == old(known)
      ensures var noted := Noted(old(View()), r, now);
              if Exhausted(limits, noted, now) then delay == None && View() == noted
              else delay == Some(Delay(limits, noted.failures)) && View() == noted.(failures := noted.failures + 1)
    {
      NoteFailure(r, now);
      if now - since.value >= limits.window {
        return None;
      }
      delay := Some(Delay(limits, failures));
      failures := failures + 1;
    }

    /** `_cancel` on everything in flight, once the cancelled attempts have ended. */
    method CancelAll()
      requires Valid()
      modifies this`inFlight, known
      ensures Valid() && known == old(known) && inFlight == []
      ensures View() == Grounded(old(View()))
    {
      for i := 0 to |inFlight|
        invariant known == old(known) && inFlight == old(inFlight)
        invariant forall r :: r in known ==>
                    r.Info() == old(r.Info()).(attempts := old(r.attempts) - TasksIn(inFlight[..i], r))
      {
        var f := inFlight[i];
        f.round.attempts := f.round.attempts - {f.task};
        forall r | r in known
          ensures TasksIn(inFlight[..i + 1], r) == TasksIn(inFlight[..i], r) + (if f.round == r then {f.task} else {})
        {
          TasksInStep(inFlight, r, i);
        }
      }
      assert inFlight[..|inFlight|] == inFlight;
      inFlight := [];
    }
  }

  lemma TasksInStep(fs: seq<Flight<Round>>, r: Round, i: nat)
    requires i < |fs|
    ensures TasksIn(fs[..i + 1], r) == TasksIn(fs[..i], r) + (if fs[i].round == r then {fs[i].task} else {})
  {
  }
}
