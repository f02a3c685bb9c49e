/**
 The order of things in a run of the worker: rounds and waits alternate, a worker that was told to stop drains
 first, and the attempts' outcomes and the clock are those of the actions so far.
 */
module WorkerOrder {
  import opened Wrappers
  import opened WorkerBook
  import opened WorkerMachine

  /** How many rounds have begun. */
  function Starts(acts: seq<Action>): nat {
    if acts == [] then 0 else (if acts[0].StartRound? then 1 else 0) + Starts(acts[1..])
  }

  /** How many waits, for the next poll or behind a failure, have ended. */
  function Waits(acts: seq<Action>): nat {
    if acts == [] then 0 else (if acts[0].PollOver? || acts[0].BackoffOver? then 1 else 0) + Waits(acts[1..])
  }

  /** The main loop has begun a round and not yet waited behind it. */
  predicate InRound(p: Place) { Dispatching(p) || p.Raising? || p.BackingOff? || p.Polling? }

  predicate Leaving(p: Place) { !p.Top? && !InRound(p) }

  /** What a step asks of the state. */
  predicate Ready(s: State, a: Action) {
    && Enabled(s, a) && Sound(s.ledger.book)
    && (Dispatching(s.place) || s.place.Raising? ==> s.cur in s.ledger.book.info)
  }

  /** The number of rounds that are ahead of the waits. */
  function Ahead(p: Place): int { if InRound(p) then 1 else 0 }

  lemma {:induction false} RoundsAhead(l: Limits, s: State, acts: seq<Action>)
    requires l.Valid() && Inv(l, s) && Possible(l, s, acts)
    ensures var p := After(l, s, acts).place;
            && (!Leaving(p) ==> Starts(acts) - Waits(acts) == Ahead(p) - Ahead(s.place))
            && (Leaving(s.place) ==> Leaving(p) && Starts(acts) == Waits(acts) == 0)
            && -Ahead(s.place) <= Starts(acts) - Waits(acts) <= 1 - Ahead(s.place)
    decreases |acts|
  {
    if acts != [] {
      StepAhead(l, s, acts[0]);
      StepKeeps(l, s, acts[0]);
      RoundsAhead(l, Apply(l, s, acts[0]), acts[1..]);
    }
  }

  lemma StepAhead(l: Limits, s: State, a: Action)
    requires Ready(s, a)
    ensures var p := Apply(l, s, a).place;
            && (Leaving(s.place) ==> Leaving(p) && !a.StartRound? && !a.PollOver? && !a.BackoffOver?)
            && (Leaving(p) ==> !a.StartRound? && !a.PollOver? && !a.BackoffOver?)
            && (!Leaving(p) ==>
                  Ahead(p) - Ahead(s.place)
                  == if a.StartRound? then 1 else if a.PollOver? || a.BackoffOver? then -1 else 0)
  {
    match a
    case Listed(_) =>
    case Begun(_) =>
    case Handle =>
    case TakeSlot =>
    case _ =>
  }

  /** In every run rounds and waits alternate, a round coming first; at the head of the main loop every round has
      been followed by its wait. */
  lemma RoundsAndWaits(l: Limits, now: real, acts: seq<Action>, n: State)
    requires Run(l, now, acts, n)
    ensures Waits(acts) <= Starts(acts) <= Waits(acts) + 1
    ensures n.place.Top? ==> Starts(acts) == Waits(acts)
    ensures Dispatching(n.place) || n.place.Raising? || n.place.BackingOff? || n.place.Polling? ==>
              Starts(acts) == Waits(acts) + 1
  {
    StartInv(l, now);
    RoundsAhead(l, Start(now), acts);
  }

  // ---- stopping ----

  lemma StepStops(l: Limits, s: State, a: Action)
    requires Ready(s, a)
    ensures Ending(s.place) == Some(Stopped) ==> Ending(Apply(l, s, a).place) == Some(Stopped)
    ensures Ending(Apply(l, s, a).place) == Some(Stopped) ==> Ending(s.place) == Some(Stopped) || a == DrainOver
    ensures Apply(l, s, a).place.Draining? ==> s.place.Draining? || a == Stop
  {
    if a.DrainOver? {
      assert Apply(l, s, a).place.Cancelling?;
    }
  }

  lemma {:induction false} StopThenDrain(l: Limits, s: State, acts: seq<Action>)
    requires l.Valid() && Inv(l, s) && Possible(l, s, acts) && Ending(s.place) != Some(Stopped)
    ensures Ending(After(l, s, acts).place) == Some(Stopped) ==> DrainOver in acts
    ensures After(l, s, acts).place.Draining? || DrainOver in acts ==> s.place.Draining? || Stop in acts
    decreases |acts|
  {
    if acts != [] {
      var a, rest := acts[0], acts[1..];
      StepStops(l, s, a);
      StepKeeps(l, s, a);
      if a != DrainOver {
        StopThenDrain(l, Apply(l, s, a), rest);
      }
      assert forall b :: b in acts <==> b == a || b in rest;
    }
  }

  /** A worker that ends as stopped was told to stop and has drained. */
  lemma StoppedHasDrained(l: Limits, now: real, acts: seq<Action>, n: State)
    requires Run(l, now, acts, n)
    ensures Ending(n.place) == Some(Stopped) ==> Stop in acts && DrainOver in acts
  {
    StartInv(l, now);
    StopThenDrain(l, Start(now), acts);
  }

  // ---- outcomes and the clock ----

  function Elapsed(acts: seq<Action>): real {
    if acts == [] then 0.0 else (if acts[0].Tick? then acts[0].elapsed else 0.0) + Elapsed(acts[1..])
  }

  lemma StepRecords(l: Limits, s: State, a: Action)
    requires Ready(s, a)
    ensures Apply(l, s, a).done == if a.Finish? then s.done[a.task := a.outcome] else s.done
    ensures Apply(l, s, a).now == s.now + if a.Tick? then a.elapsed else 0.0
  {
    if a.Listed? || a.Begun? {
      NextKeeps(s, if a.Listed? then a.n else s.place.later);
    } else if !Quiet(a) {
      BooksKeep(l, s, a);
    }
  }

  lemma NextKeeps(s: State, left: nat)
    requires s.cur in s.ledger.book.info
    ensures NextCandidate(s, left).done == s.done && NextCandidate(s, left).now == s.now
  {
  }

  lemma BooksKeep(l: Limits, s: State, a: Action)
    requires Ready(s, a) && !a.Listed? && !a.Begun? && !Quiet(a)
    ensures Apply(l, s, a).done == s.done && Apply(l, s, a).now == s.now
  {
  }

  lemma {:induction false} RecordsAfter(l: Limits, s: State, acts: seq<Action>, t: nat, o: Outcome)
    requires l.Valid() && Inv(l, s) && Possible(l, s, acts)
    ensures var n := After(l, s, acts);
            && n.now == s.now + Elapsed(acts)
            && (t in n.done && n.done[t] == o <==> (t in s.done && s.done[t] == o) || Finish(t, o) in acts)
            && (t in s.done ==> t in n.done && n.done[t] == s.done[t])
    decreases |acts|
  {
    if acts != [] {
      var a, rest := acts[0], acts[1..];
      StepRecords(l, s, a);
      StepKeeps(l, s, a);
      RecordsAfter(l, Apply(l, s, a), rest, t, o);
      assert Finish(t, o) in acts <==> a == Finish(t, o) || Finish(t, o) in rest;
    }
  }

  /** In every run an attempt's outcome is the one with which it ended, and the clock shows the time that
      has passed. */
  lemma RecordsInEveryRun(l: Limits, now: real, acts: seq<Action>, n: State, t: nat, o: Outcome)
    requires Run(l, now, acts, n)
    ensures t in n.done && n.done[t] == o <==> Finish(t, o) in acts
    ensures n.now == now + Elapsed(acts)
  {
    StartInv(l, now);
    RecordsAfter(l, Start(now), acts, t, o);
  }
}
