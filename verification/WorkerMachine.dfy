/**
 The running worker as a machine. An action is what happens between two awaits: a step of the
 dispatcher or of the main loop, an attempt that ends, or time that passes. A run is any order
 of possible actions.
 */
module WorkerMachine {
  import opened Wrappers
  import opened WorkerBook
  import opened WorkerLedger
  import opened WorkerAgreement

  /** Why the worker stops. */
  datatype Exit = Stopped | WindowExhausted | Broken(error: Outcome) | Aborted

  /** Where the worker stands. While it waits for a slot to claim a candidate, and while it claims
      it, `later` candidates come behind that one. It has exited when the cancelled attempts have
      ended, and is interrupted when it was cancelled again before. */
  datatype Place =
    | Top
    | SlotToList
    | Listing
    | SlotToBegin(later: nat)
    | Beginning(later: nat)
    | Raising(error: Outcome)
    | BackingOff(deadline: real)
    | Polling
    | Draining
    | Cancelling(why: Exit)
    | Exited(why: Exit)
    | Interrupted(why: Exit)

  datatype State = State(ledger: Ledger, done: map<nat, Outcome>, cur: nat, nextRound: nat, nextTask: nat,
                         place: Place, now: real)

  datatype Action =
    | StartRound
    | TakeSlot
    | Listed(n: nat)
    | Begun(applied: bool)
    | StoreRaises(error: Outcome)
    | Handle
    | BackoffOver
    | PollOver
    | Stop
    | DrainOver
    | CancelDone
    | Abort
    | AbortAgain
    | Finish(task: nat, outcome: Outcome)
    | Tick(elapsed: real)

  function Start(now: real): State {
    State(Ledger(Book([], [], map[], None, 0), []), map[], 0, 0, 0, Top, now)
  }

  predicate Dispatching(p: Place) { p.SlotToList? || p.Listing? || p.SlotToBegin? || p.Beginning? }

  predicate Enabled(s: State, a: Action) {
    match a
    case StartRound => s.place.Top?
    case TakeSlot => s.place.SlotToList? || s.place.SlotToBegin?
    case Listed(_) => s.place.Listing?
    case Begun(_) => s.place.Beginning?
    case StoreRaises(e) => Failed(e) && (s.place.Listing? || s.place.Beginning?)
    case Handle => s.place.Raising?
    case BackoffOver => s.place.BackingOff? && s.now >= s.place.deadline
    case PollOver => s.place.Polling?
    case Stop => s.place.Top? || Dispatching(s.place) || s.place.BackingOff? || s.place.Polling?
    case DrainOver => s.place.Draining?
    case CancelDone => s.place.Cancelling?
    case Abort => Ending(s.place).None?
    case AbortAgain => s.place.Cancelling? && s.ledger.book.inFlight != []
    case Finish(t, _) => Flying(s.ledger.book.inFlight, t) && t !in s.done
    case Tick(d) => d >= 0.0
  }

  /** The next of `left` candidates; without one the dispatch is over. */
  function NextCandidate(s: State, left: nat): State
    requires s.cur in s.ledger.book.info
  {
    if left == 0 then s.(ledger := LogFinish(s.ledger, s.cur), place := Polling)
    else s.(place := SlotToBegin(left - 1))
  }

  /** A claim that was granted starts an attempt in the current round. */
  function Launched(s: State): State
    requires s.cur in s.ledger.book.info
  {
    s.(ledger := s.ledger.(book := Launch(s.ledger.book, s.cur, s.nextTask)), nextTask := s.nextTask + 1)
  }

  function Apply(l: Limits, s: State, a: Action): State
    requires Enabled(s, a) && Sound(s.ledger.book)
    requires Dispatching(s.place) || s.place.Raising? ==> s.cur in s.ledger.book.info
  {
    match a
    case StartRound =>
      s.(ledger := LogOpen(s.ledger, s.nextRound), cur := s.nextRound, nextRound := s.nextRound + 1,
         place := SlotToList)
    case TakeSlot =>
      var reaped := s.(ledger := LogReap(s.ledger, s.done));
      var raised := Raised(s.ledger.book.inFlight, s.done);
      if raised.Some? then reaped.(place := Raising(raised.value))
      else if |reaped.ledger.book.inFlight| >= l.maxTasks then reaped
      else reaped.(place := if s.place.SlotToList? then Listing else Beginning(s.place.later))
    case Listed(n) => NextCandidate(s, n)
    case Begun(applied) => NextCandidate(if applied then Launched(s) else s, s.place.later)
    case StoreRaises(e) => s.(place := Raising(e))
    case Handle =>
      if !s.place.error.Unavailable? then s.(place := Cancelling(Broken(s.place.error)))
      else
        var noted := LogNoted(s.ledger, s.cur, s.now);
        if Exhausted(l, noted.book, s.now) then s.(ledger := noted, place := Cancelling(WindowExhausted))
        else
          s.(ledger := noted.(book := noted.book.(failures := noted.book.failures + 1)),
             place := BackingOff(s.now + Delay(l, noted.book.failures)))
    case BackoffOver => s.(place := Top)
    case PollOver => s.(place := Top)
    case Stop => s.(place := Draining)
    case DrainOver =>
      var raised := Raised(s.ledger.book.inFlight, s.done);
      s.(ledger := LogReap(s.ledger, s.done),
         place := Cancelling(if raised.Some? && Fatal(raised.value) then Broken(raised.value) else Stopped))
    case CancelDone => s.(ledger := s.ledger.(book := Grounded(s.ledger.book)), place := Exited(s.place.why))
    case Abort => s.(place := Cancelling(Aborted))
    case AbortAgain => s.(place := Interrupted(s.place.why))
    case Finish(t, o) => s.(done := s.done[t := o])
    case Tick(d) => s.(now := s.now + d)
  }

  // ---- what holds in every state ----

  /** Of the open rounds only `cur` may still be dispatching, and only where a dispatch runs or
      was cut short. */
  predicate DispatchOrder(s: State) {
    forall r :: r in s.ledger.book.rounds && r in s.ledger.book.info && !s.ledger.book.info[r].dispatched ==>
                  r == s.cur && !s.place.Top? && !s.place.BackingOff? && !s.place.Polling?
  }

  predicate Numbered(s: State) {
    && (forall r :: r in s.ledger.book.info ==> r < s.nextRound)
    && (forall f :: f in s.ledger.book.inFlight ==> f.task < s.nextTask)
  }

  /** The current round is open while it dispatches. */
  predicate CurOpen(s: State) {
    var b := s.ledger.book;
    Dispatching(s.place) || s.place.Raising? ==>
      s.cur in b.rounds && s.cur in b.info && !b.info[s.cur].dispatched
  }

  predicate Bounded(l: Limits, s: State) {
    && |s.ledger.book.inFlight| <= l.maxTasks
    && (s.place.Beginning? ==> |s.ledger.book.inFlight| < l.maxTasks)
  }

  /** The books agree with the log; only the stop for an exhausted window leaves its last failure
      out of the counter, and only the final cancellation leaves rounds that nobody closed. */
  predicate Booked(s: State) {
    var b := s.ledger.book;
    && Tracked(s.ledger)
    && b.since == Window(s.ledger.log).since
    && Window(s.ledger.log).failures == b.failures + (if Ending(s.place) == Some(WindowExhausted) then 1 else 0)
    && (s.place.Exited? || ClosableWithin(b, {}))
    && (s.place.Exited? ==> b.inFlight == [])
  }

  function Ending(p: Place): Option<Exit> {
    match p
    case Cancelling(why) => Some(why)
    case Exited(why) => Some(why)
    case Interrupted(why) => Some(why)
    case _ => None
  }

  /** Two caught failures a whole window apart, and no round without a failure has settled since
      the first. */
  ghost predicate WindowPassed(l: Limits, log: seq<Event>) {
    exists k, m :: WindowSpan(l, log, k, m)
  }

  predicate WindowSpan(l: Limits, log: seq<Event>, k: nat, m: nat) {
    && k < m < |log| && log[k].Caught? && log[m].Caught? && log[m].at - log[k].at >= l.window
    && forall j :: k <= j < |log| ==> !CleanSettle(log, j)
  }

  ghost predicate Inv(l: Limits, s: State) {
    && Booked(s) && DispatchOrder(s) && Numbered(s) && CurOpen(s) && Bounded(l, s)
    && (Ending(s.place) == Some(WindowExhausted) ==> WindowPassed(l, s.ledger.log))
  }

  lemma StartInv(l: Limits, now: real)
    ensures Inv(l, Start(now))
  {
  }

  lemma StepKeeps(l: Limits, s: State, a: Action)
    requires l.Valid() && Inv(l, s) && Enabled(s, a)
    ensures Inv(l, Apply(l, s, a))
  {
    match a
    case StartRound => KeepsStart(l, s);
    case TakeSlot => KeepsReap(l, s, Apply(l, s, a));
    case Listed(n) => KeepsNext(l, s, n);
    case Begun(applied) => KeepsBegun(l, s, applied);
    case Handle => KeepsHandle(l, s);
    case DrainOver => KeepsReap(l, s, Apply(l, s, a));
    case CancelDone => KeepsCancel(l, s);
    case _ => KeepsQuiet(l, s, a);
  }

  predicate Quiet(a: Action) {
    a.StoreRaises? || a.BackoffOver? || a.PollOver? || a.Stop? || a.Abort? || a.AbortAgain? || a.Finish? || a.Tick?
  }

  /** Steps that leave the books alone. */
  lemma KeepsQuiet(l: Limits, s: State, a: Action)
    requires Inv(l, s) && Enabled(s, a) && Quiet(a)
    ensures Inv(l, Apply(l, s, a)) && Apply(l, s, a).ledger == s.ledger
  {
  }

  lemma KeepsStart(l: Limits, s: State)
    requires Inv(l, s) && s.place.Top?
    ensures Inv(l, Apply(l, s, StartRound))
  {
    OpenAgrees(s.ledger, s.nextRound);
  }

  /** A reap, wherever the worker goes behind it. */
  lemma KeepsReap(l: Limits, s: State, n: State)
    requires Inv(l, s) && !s.place.Exited? && Ending(s.place) != Some(WindowExhausted)
    requires n == s.(ledger := LogReap(s.ledger, s.done), place := n.place)
    requires !n.place.Top? && !n.place.BackingOff? && !n.place.Polling? && !n.place.Exited?
    requires Ending(n.place) != Some(WindowExhausted)
    requires n.place.Beginning? ==> |n.ledger.book.inFlight| < l.maxTasks
    requires (Dispatching(n.place) || n.place.Raising?) ==> Dispatching(s.place)
    ensures Inv(l, n)
  {
    ReapAgrees(s.ledger, s.done);
    ReapFrame(s.ledger, s.done);
  }

  lemma {:induction false} PopAllFrame(l: Ledger, fs: seq<Flight<nat>>, done: map<nat, Outcome>)
    requires Sound(l.book) && Poppable(l.book, fs, done)
    ensures var n := LogPopAll(l, fs, done).book;
            && n.info.Keys == l.book.info.Keys && n.rounds == l.book.rounds
            && (forall f :: f in n.inFlight ==> f in l.book.inFlight)
            && (forall r :: r in n.info ==> n.info[r].dispatched == l.book.info[r].dispatched)
    decreases |fs|
  {
    if fs != [] {
      PopKeepsPoppable(l.book, fs, done);
      PopAllFrame(LogPop(l, fs[0].task, done[fs[0].task]), fs[1..], done);
    }
  }

  lemma {:induction false} SettleAllFrame(l: Ledger, rs: seq<nat>)
    ensures var n := LogSettleAll(l, rs).book;
            && n.info == l.book.info && n.inFlight == l.book.inFlight
            && (forall r :: r in n.rounds ==> r in l.book.rounds)
            && (forall r :: r in l.book.rounds && r in n.info && !n.info[r].dispatched ==> r in n.rounds)
    decreases |rs|
  {
    if rs != [] {
      SettleAllFrame(LogSettle(l, rs[0]), rs[1..]);
    }
  }

  /** A reap starts nothing and never closes a round that is still dispatching. */
  lemma ReapFrame(l: Ledger, done: map<nat, Outcome>)
    requires Sound(l.book)
    ensures var n := LogReap(l, done).book;
            && n.info.Keys == l.book.info.Keys
            && (forall f :: f in n.inFlight ==> f in l.book.inFlight)
            && (forall r :: r in n.info ==> n.info[r].dispatched == l.book.info[r].dispatched)
            && (forall r :: r in n.rounds ==> r in l.book.rounds)
            && (forall r :: r in l.book.rounds && r in n.info && !n.info[r].dispatched ==> r in n.rounds)
  {
    var fs := Finished(l.book.inFlight, done);
    FinishedDistinct(l.book.inFlight, done);
    PopAllFrame(l, fs, done);
    SettleAllFrame(LogPopAll(l, fs, done), RoundsOf(fs));
  }

  lemma KeepsNext(l: Limits, s: State, left: nat)
    requires Inv(l, s) && Dispatching(s.place)
    ensures Inv(l, NextCandidate(s, left))
  {
    if left == 0 {
      FinishAgrees(s.ledger, s.cur);
    }
  }

  lemma KeepsBegun(l: Limits, s: State, applied: bool)
    requires Inv(l, s) && s.place.Beginning?
    ensures Inv(l, Apply(l, s, Begun(applied)))
  {
    if applied {
      LaunchAgrees(s.ledger, s.cur, s.nextTask);
      KeepsNext(l, Launched(s).(place := SlotToBegin(s.place.later)), s.place.later);
    } else {
      KeepsNext(l, s, s.place.later);
    }
  }

  /** The log entry of the failure that exhausts the window is a whole window behind its start. */
  lemma ExhaustedSpan(l: Limits, s: State)
    requires l.Valid() && Inv(l, s) && s.place.Raising? && s.place.error.Unavailable?
    requires Exhausted(l, LogNoted(s.ledger, s.cur, s.now).book, s.now)
    ensures WindowPassed(l, LogNoted(s.ledger, s.cur, s.now).log)
  {
    var noted := LogNoted(s.ledger, s.cur, s.now);
    NotedAgrees(s.ledger, s.cur, s.now);
    var k := WindowStart(noted.log);
    var m := |s.ledger.log|;
    assert noted.log[m] == Caught(s.now);
    assert WindowSpan(l, noted.log, k, m);
  }

  /** The round that met the failure is over, and no other one changes its place. */
  lemma NotedFrame(l: Ledger, r: nat, now: real)
    requires r in l.book.info
    ensures var n := LogNoted(l, r, now).book;
            && n.info.Keys == l.book.info.Keys
            && (forall x :: x in n.info ==> n.info[x].dispatched == (x == r || l.book.info[x].dispatched))
  {
  }

  lemma KeepsNoted(l: Limits, s: State)
    requires l.Valid() && Inv(l, s) && s.place.Raising? && s.place.error.Unavailable?
    ensures Inv(l, Apply(l, s, Handle))
  {
    if Exhausted(l, LogNoted(s.ledger, s.cur, s.now).book, s.now) {
      KeepsExhausted(l, s);
    } else {
      KeepsBackoff(l, s);
    }
  }

  lemma KeepsExhausted(l: Limits, s: State)
    requires l.Valid() && Inv(l, s) && s.place.Raising? && s.place.error.Unavailable?
    requires Exhausted(l, LogNoted(s.ledger, s.cur, s.now).book, s.now)
    ensures Inv(l, Apply(l, s, Handle))
  {
    var noted := LogNoted(s.ledger, s.cur, s.now);
    NotedAgrees(s.ledger, s.cur, s.now);
    NotedFrame(s.ledger, s.cur, s.now);
    ExhaustedSpan(l, s);
    NotedRest(l, s, noted, s.(ledger := noted, place := Cancelling(WindowExhausted)));
  }

  lemma KeepsBackoff(l: Limits, s: State)
    requires l.Valid() && Inv(l, s) && s.place.Raising? && s.place.error.Unavailable?
    requires !Exhausted(l, LogNoted(s.ledger, s.cur, s.now).book, s.now)
    ensures Inv(l, Apply(l, s, Handle))
  {
    var noted := LogNoted(s.ledger, s.cur, s.now);
    NotedAgrees(s.ledger, s.cur, s.now);
    NotedFrame(s.ledger, s.cur, s.now);
    var b := noted.book.(failures := noted.book.failures + 1);
    NotedRest(l, s, noted, s.(ledger := noted.(book := b), place := BackingOff(s.now + Delay(l, noted.book.failures))));
  }

  /** What a caught failure does not touch. */
  lemma NotedRest(l: Limits, s: State, noted: Ledger, n: State)
    requires Inv(l, s) && s.place.Raising?
    requires n == s.(ledger := noted.(book := noted.book.(failures := n.ledger.book.failures)), place := n.place)
    requires n.place.BackingOff? || n.place.Cancelling?
    requires noted.book.inFlight == s.ledger.book.inFlight && noted.book.info.Keys == s.ledger.book.info.Keys
    requires forall x :: x in noted.book.info ==>
               noted.book.info[x].dispatched == (x == s.cur || s.ledger.book.info[x].dispatched)
    requires forall x :: x in noted.book.rounds ==> x in s.ledger.book.rounds
    ensures DispatchOrder(n) && Numbered(n) && CurOpen(n) && Bounded(l, n)
  {
  }

  lemma KeepsHandle(l: Limits, s: State)
    requires l.Valid() && Inv(l, s) && s.place.Raising?
    ensures Inv(l, Apply(l, s, Handle))
  {
    if s.place.error.Unavailable? {
      KeepsNoted(l, s);
    }
  }

  lemma KeepsCancel(l: Limits, s: State)
    requires Inv(l, s) && s.place.Cancelling?
    ensures Inv(l, Apply(l, s, CancelDone))
  {
  }

  // ---- runs ----

  ghost predicate Possible(l: Limits, s: State, acts: seq<Action>)
    requires l.Valid() && Inv(l, s)
    decreases |acts|
  {
    acts == [] || (Enabled(s, acts[0]) && (StepKeeps(l, s, acts[0]); Possible(l, Apply(l, s, acts[0]), acts[1..])))
  }

  /** The state at the end of a run: every state of every run keeps the invariant. */
  ghost function After(l: Limits, s: State, acts: seq<Action>): (n: State)
    requires l.Valid() && Inv(l, s) && Possible(l, s, acts)
    ensures Inv(l, n)
    decreases |acts|
  {
    if acts == [] then s else (StepKeeps(l, s, acts[0]); After(l, Apply(l, s, acts[0]), acts[1..]))
  }

  /** A run of a new worker, from time `now` on, that ends in state `s`. */
  ghost predicate Run(l: Limits, now: real, acts: seq<Action>, s: State) {
    l.Valid() && (StartInv(l, now); Possible(l, Start(now), acts) && s == After(l, Start(now), acts))
  }

  lemma RunStep(l: Limits, s: State, a: Action, rest: seq<Action>)
    requires l.Valid() && Inv(l, s) && Enabled(s, a)
    ensures Inv(l, Apply(l, s, a))
    ensures Possible(l, Apply(l, s, a), rest) ==>
              Possible(l, s, [a] + rest) && After(l, s, [a] + rest) == After(l, Apply(l, s, a), rest)
  {
    StepKeeps(l, s, a);
    assert ([a] + rest)[1..] == rest;
  }

  // ---- the wait for a slot ----

  /** Taking a slot is one wake of the wait for it. */
  lemma TakeSlotIsOneWake(l: Limits, s: State)
    requires Inv(l, s) && (s.place.SlotToList? || s.place.SlotToBegin?)
    ensures var n, (b, slot) := Apply(l, s, TakeSlot), SlotAfter(l, s.ledger.book, [s.done]);
            && n.ledger.book == b
            && (slot.Waiting? <==> n.place == s.place)
            && (slot.Granted? <==> n.place.Listing? || n.place.Beginning?)
            && (forall e :: slot == Failing(e) <==> n.place == Raising(e))
  {
    FinishedRaises(s.ledger.book.inFlight, s.done);
    assert [s.done][1..] == [];
  }
}
