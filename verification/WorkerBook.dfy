/**
 The worker's bookkeeping as values: attempts in flight in the order they were claimed, open
 rounds, and the failure window. `R` stands for a round, whatever represents it.
 */
module WorkerBook {
  import opened Doubling
  import opened Wrappers

  /** How an attempt ended. */
  datatype Outcome = Cancelled | Returned(value: bool) | Unavailable | IntegrityError | OtherError

  predicate Failed(o: Outcome) { Fatal(o) || o.Unavailable? }

  predicate Fatal(o: Outcome) { o.IntegrityError? || o.OtherError? }

  datatype RoundInfo = RoundInfo(attempts: set<nat>, completed: nat, dispatched: bool, dirty: bool)

  datatype Flight<R> = Flight(task: nat, round: R)

  datatype Book<R> = Book(inFlight: seq<Flight<R>>, rounds: seq<R>, info: map<R, RoundInfo>,
                          since: Option<real>, failures: nat)

  datatype Limits = Limits(maxTasks: nat, base: real, cap: real, window: real) {
    predicate Valid() { maxTasks >= 1 && 0.0 < base <= cap && 0.0 < window }
  }

  const FRESH := RoundInfo({}, 0, false, false)

  predicate Flying<R(==)>(fs: seq<Flight<R>>, t: nat) {
    exists i :: 0 <= i < |fs| && fs[i].task == t
  }

  function RoundOf<R(==)>(fs: seq<Flight<R>>, t: nat): (r: R)
    requires Flying(fs, t)
    ensures Flight(t, r) in fs
  {
    if fs[0].task == t then fs[0].round
    else
      assert forall i :: 0 < i < |fs| ==> fs[i] == fs[1..][i - 1];
      RoundOf(fs[1..], t)
  }

  function Landed<R(==)>(fs: seq<Flight<R>>, t: nat): (r: seq<Flight<R>>)
    ensures forall f :: f in r ==> f in fs && f.task != t
    ensures forall f :: f in fs && f.task != t ==> f in r
  {
    if fs == [] then []
    else if fs[0].task == t then Landed(fs[1..], t)
    else [fs[0]] + Landed(fs[1..], t)
  }

  /** A round that one finished attempt has left. */
  function Left(i: RoundInfo, t: nat, o: Outcome): RoundInfo {
    RoundInfo(i.attempts - {t}, i.completed + (if o == Returned(true) then 1 else 0), i.dispatched,
              i.dirty || Failed(o))
  }

  /** Takes one finished attempt out of flight and counts it for its round. */
  function Pop<R(==)>(b: Book<R>, t: nat, o: Outcome): Book<R>
    requires Flying(b.inFlight, t) && RoundOf(b.inFlight, t) in b.info
  {
    var r := RoundOf(b.inFlight, t);
    b.(inFlight := Landed(b.inFlight, t), info := b.info[r := Left(b.info[r], t, o)])
  }

  function Remove<R(==)>(rs: seq<R>, r: R): (n: seq<R>)
    ensures forall x :: x in n ==> x in rs
    ensures forall x :: x in rs && x != r ==> x in n
  {
    if rs == [] then [] else if rs[0] == r then rs[1..] else [rs[0]] + Remove(rs[1..], r)
  }

  predicate Closable<R(==)>(b: Book<R>, r: R) {
    r in b.info && b.info[r].dispatched && b.info[r].attempts == {} && r in b.rounds
  }

  /** `_settle`: a dispatched round without attempts closes; a clean one ends the failure window. */
  function Settle<R(==)>(b: Book<R>, r: R): Book<R> {
    if !Closable(b, r) then b
    else
      var closed := b.(rounds := Remove(b.rounds, r));
      if b.info[r].dirty then closed else closed.(since := None, failures := 0)
  }

  function SettleAll<R(==)>(b: Book<R>, rs: seq<R>): Book<R>
    decreases |rs|
  {
    if rs == [] then b else SettleAll(Settle(b, rs[0]), rs[1..])
  }

  /** The finished attempts, in the order they were claimed. */
  function Finished<R(==)>(fs: seq<Flight<R>>, done: map<nat, Outcome>): (r: seq<Flight<R>>)
    ensures forall f :: f in r ==> f in fs && f.task in done
    ensures forall f :: f in fs && f.task in done ==> f in r
  {
    if fs == [] then []
    else (if fs[0].task in done then [fs[0]] else []) + Finished(fs[1..], done)
  }

  /** Each task flies once, in a known round. */
  predicate Sound<R(==)>(b: Book<R>) {
    && Distinct(b.inFlight)
    && (forall f :: f in b.inFlight ==> f.round in b.info)
  }

  lemma RoundOfFlight<R>(fs: seq<Flight<R>>, f: Flight<R>)
    requires f in fs && Distinct(fs)
    ensures Flying(fs, f.task) && RoundOf(fs, f.task) == f.round
  {
  }

  predicate Distinct<R>(fs: seq<Flight<R>>) {
    forall i, j :: 0 <= i < j < |fs| ==> fs[i].task != fs[j].task
  }

  lemma TailDiffers<R>(fs: seq<Flight<R>>, f: Flight<R>)
    requires fs != [] && Distinct(fs) && f in fs[1..]
    ensures f.task != fs[0].task
  {
  }

  lemma {:induction false} LandedDistinct<R>(fs: seq<Flight<R>>, t: nat)
    requires Distinct(fs)
    ensures Distinct(Landed(fs, t))
    ensures |Landed(fs, t)| == |fs| - (if Flying(fs, t) then 1 else 0)
  {
    if fs != [] {
      LandedDistinct(fs[1..], t);
      FlyingTail(fs, t);
      forall f | f in Landed(fs[1..], t)
        ensures f.task != fs[0].task
      {
        TailDiffers(fs, f);
      }
    }
  }

  lemma FlyingTail<R>(fs: seq<Flight<R>>, t: nat)
    requires fs != [] && Distinct(fs)
    ensures Flying(fs, t) <==> fs[0].task == t || Flying(fs[1..], t)
    ensures !(fs[0].task == t && Flying(fs[1..], t))
  {
  }

  lemma PopSound<R>(b: Book<R>, t: nat, o: Outcome)
    requires Sound(b) && Flying(b.inFlight, t)
    ensures RoundOf(b.inFlight, t) in b.info && Sound(Pop(b, t, o))
  {
    LandedDistinct(b.inFlight, t);
  }

  /** Pops a list of finished attempts, one behind the other. */
  function PopAll<R(==)>(b: Book<R>, fs: seq<Flight<R>>, done: map<nat, Outcome>): (n: Book<R>)
    requires Sound(b) && Poppable(b, fs, done)
    ensures Sound(n)
    decreases |fs|
  {
    if fs == [] then b
    else
      PopKeepsPoppable(b, fs, done);
      PopAll(Pop(b, fs[0].task, done[fs[0].task]), fs[1..], done)
  }

  predicate Poppable<R(==)>(b: Book<R>, fs: seq<Flight<R>>, done: map<nat, Outcome>) {
    && (forall f :: f in fs ==> f in b.inFlight && f.task in done)
    && Distinct(fs)
  }

  lemma PopKeepsPoppable<R>(b: Book<R>, fs: seq<Flight<R>>, done: map<nat, Outcome>)
    requires Sound(b) && Poppable(b, fs, done) && fs != []
    ensures Flying(b.inFlight, fs[0].task) && RoundOf(b.inFlight, fs[0].task) == fs[0].round
    ensures fs[0].round in b.info
    ensures var n := Pop(b, fs[0].task, done[fs[0].task]);
            Sound(n) && Poppable(n, fs[1..], done)
  {
    RoundOfFlight(b.inFlight, fs[0]);
    PopSound(b, fs[0].task, done[fs[0].task]);
    forall f | f in fs[1..]
      ensures f.task != fs[0].task
    {
      TailDiffers(fs, f);
    }
  }

  lemma {:induction false} FinishedDistinct<R>(fs: seq<Flight<R>>, done: map<nat, Outcome>)
    requires Distinct(fs)
    ensures Distinct(Finished(fs, done))
  {
    if fs != [] {
      FinishedDistinct(fs[1..], done);
      forall f | f in Finished(fs[1..], done)
        ensures f.task != fs[0].task
      {
        TailDiffers(fs, f);
      }
    }
  }

  function RoundsOf<R>(fs: seq<Flight<R>>): (r: seq<R>)
    ensures |r| == |fs| && forall i :: 0 <= i < |r| ==> r[i] == fs[i].round
  {
    if fs == [] then [] else [fs[0].round] + RoundsOf(fs[1..])
  }

  /** `_reap`: all finished attempts leave, then their rounds settle. */
  function Reap<R(==)>(b: Book<R>, done: map<nat, Outcome>): Book<R>
    requires Sound(b)
  {
    var fs := Finished(b.inFlight, done);
    FinishedDistinct(b.inFlight, done);
    SettleAll(PopAll(b, fs, done), RoundsOf(fs))
  }

  lemma {:induction false} SettleAllSound<R>(b: Book<R>, rs: seq<R>)
    requires Sound(b)
    ensures Sound(SettleAll(b, rs))
    decreases |rs|
  {
    if rs != [] {
      SettleAllSound(Settle(b, rs[0]), rs[1..]);
    }
  }

  lemma ReapSound<R>(b: Book<R>, done: map<nat, Outcome>)
    requires Sound(b)
    ensures Sound(Reap(b, done))
  {
    var fs := Finished(b.inFlight, done);
    FinishedDistinct(b.inFlight, done);
    SettleAllSound(PopAll(b, fs, done), RoundsOf(fs));
  }

  /** How the wait for a slot stands: granted, ended by an error, or still waiting. */
  datatype Slot = Granted | Failing(error: Outcome) | Waiting

  /** `_wait_for_slot` over a list of wakes, each with the attempts that are done by then: every
      wake reaps, an error ends the wait, and so does a free slot. */
  function SlotAfter<R(==)>(l: Limits, b: Book<R>, wakes: seq<map<nat, Outcome>>): (n: (Book<R>, Slot))
    requires Sound(b)
    ensures Sound(n.0) && (n.1.Granted? ==> |n.0.inFlight| < l.maxTasks)
    decreases |wakes|
  {
    if wakes == [] then (b, Waiting)
    else
      var raised := Raised(Finished(b.inFlight, wakes[0]), wakes[0]);
      ReapSound(b, wakes[0]);
      var reaped := Reap(b, wakes[0]);
      if raised.Some? then (reaped, Failing(raised.value))
      else if |reaped.inFlight| < l.maxTasks then (reaped, Granted)
      else SlotAfter(l, reaped, wakes[1..])
  }

  /** What `_reap` raises: the first fatal error, else the first transient one. */
  function Raised<R(==)>(fs: seq<Flight<R>>, done: map<nat, Outcome>): Option<Outcome> {
    match FirstFatal(fs, done)
    case Some(o) => Some(o)
    case None => if AnyUnavailable(fs, done) then Some(Unavailable) else None
  }

  predicate AnyUnavailable<R(==)>(fs: seq<Flight<R>>, done: map<nat, Outcome>) {
    exists i :: 0 <= i < |fs| && fs[i].task in done && done[fs[i].task].Unavailable?
  }

  function FirstFatal<R(==)>(fs: seq<Flight<R>>, done: map<nat, Outcome>): (o: Option<Outcome>)
    ensures o.Some? ==> Fatal(o.value)
  {
    if fs == [] then None
    else if fs[0].task in done && Fatal(done[fs[0].task]) then Some(done[fs[0].task])
    else FirstFatal(fs[1..], done)
  }

  /** Only the finished attempts count for what is raised. */
  lemma FinishedRaises<R>(fs: seq<Flight<R>>, done: map<nat, Outcome>)
    ensures Raised(Finished(fs, done), done) == Raised(fs, done)
  {
    FinishedFatal(fs, done);
    if AnyUnavailable(fs, done) {
      var i :| 0 <= i < |fs| && fs[i].task in done && done[fs[i].task].Unavailable?;
      assert fs[i] in Finished(fs, done);
    }
    if AnyUnavailable(Finished(fs, done), done) {
      var i :| 0 <= i < |Finished(fs, done)| && done[Finished(fs, done)[i].task].Unavailable?;
      assert Finished(fs, done)[i] in fs;
    }
  }

  lemma {:induction false} FinishedFatal<R>(fs: seq<Flight<R>>, done: map<nat, Outcome>)
    ensures FirstFatal(Finished(fs, done), done) == FirstFatal(fs, done)
  {
    if fs != [] {
      FinishedFatal(fs[1..], done);
      if fs[0].task in done {
        assert Finished(fs, done)[0] == fs[0] && Finished(fs, done)[1..] == Finished(fs[1..], done);
      } else {
        assert Finished(fs, done) == Finished(fs[1..], done);
      }
    }
  }

  /** The books before step `i` of the pop loop. */
  function Popped<R(==)>(start: Book<R>, fs: seq<Flight<R>>, done: map<nat, Outcome>, i: nat): Book<R>
    requires i <= |fs|
  {
    if i == 0 then start
    else
      var b, t := Popped(start, fs, done, i - 1), fs[i - 1].task;
      if t in done && Flying(b.inFlight, t) && RoundOf(b.inFlight, t) in b.info then Pop(b, t, done[t]) else b
  }

  lemma {:induction false} PoppedRest<R>(start: Book<R>, fs: seq<Flight<R>>, done: map<nat, Outcome>, i: nat)
    requires Sound(start) && Poppable(start, fs, done) && i <= |fs|
    ensures var b := Popped(start, fs, done, i);
            Sound(b) && Poppable(b, fs[i..], done) && PopAll(b, fs[i..], done) == PopAll(start, fs, done)
  {
    if i == 0 {
      assert fs[0..] == fs;
    } else {
      PoppedRest(start, fs, done, i - 1);
      PopKeepsPoppable(Popped(start, fs, done, i - 1), fs[i - 1..], done);
      assert fs[i - 1..][1..] == fs[i..];
    }
  }

  lemma PoppedNext<R>(start: Book<R>, fs: seq<Flight<R>>, done: map<nat, Outcome>, i: nat)
    requires Sound(start) && Poppable(start, fs, done) && i < |fs|
    ensures var b := Popped(start, fs, done, i);
            && Flying(b.inFlight, fs[i].task) && RoundOf(b.inFlight, fs[i].task) in b.info && fs[i].task in done
            && Popped(start, fs, done, i + 1) == Pop(b, fs[i].task, done[fs[i].task])
  {
    PoppedRest(start, fs, done, i);
    PopKeepsPoppable(Popped(start, fs, done, i), fs[i..], done);
  }

  lemma PoppedAll<R>(start: Book<R>, fs: seq<Flight<R>>, done: map<nat, Outcome>)
    requires Sound(start) && Poppable(start, fs, done)
    ensures Popped(start, fs, done, |fs|) == PopAll(start, fs, done)
    ensures forall k :: 0 <= k < |fs| ==> fs[k].round in start.info
  {
    PoppedRest(start, fs, done, |fs|);
    assert fs[|fs|..] == [];
  }

  /** What the pop loop keeps of the errors it meets. */
  datatype Kept = Kept(fatal: Option<Outcome>, transient: bool)

  function Keep(k: Kept, o: Outcome): Kept {
    Kept(if k.fatal.None? && Fatal(o) then Some(o) else k.fatal, k.transient || o.Unavailable?)
  }

  function KeptBefore<R(==)>(fs: seq<Flight<R>>, done: map<nat, Outcome>, i: nat): Kept
    requires i <= |fs| && forall f :: f in fs ==> f.task in done
  {
    if i == 0 then Kept(None, false) else Keep(KeptBefore(fs, done, i - 1), done[fs[i - 1].task])
  }

  lemma KeptNext<R>(fs: seq<Flight<R>>, done: map<nat, Outcome>, i: nat)
    requires i < |fs| && forall f :: f in fs ==> f.task in done
    ensures fs[i].task in done && KeptBefore(fs, done, i + 1) == Keep(KeptBefore(fs, done, i), done[fs[i].task])
  {
  }

  /** At the end the kept errors decide what is raised. */
  lemma {:induction false} KeptRaises<R>(fs: seq<Flight<R>>, done: map<nat, Outcome>, i: nat)
    requires i <= |fs| && forall f :: f in fs ==> f.task in done
    ensures FirstFatal(fs[..i], done) == KeptBefore(fs, done, i).fatal
    ensures AnyUnavailable(fs[..i], done) == KeptBefore(fs, done, i).transient
  {
    if i > 0 {
      KeptRaises(fs, done, i - 1);
      var front := fs[..i - 1];
      assert fs[..i] == front + [fs[i - 1]];
      FirstFatalAppend(front, fs[i - 1], done);
      assert fs[..i][i - 1] == fs[i - 1];
      assert forall j :: 0 <= j < i - 1 ==> fs[..i][j] == front[j];
    }
  }

  lemma KeptDecides<R>(fs: seq<Flight<R>>, done: map<nat, Outcome>)
    requires forall f :: f in fs ==> f.task in done
    ensures var k := KeptBefore(fs, done, |fs|);
            Raised(fs, done) == if k.fatal.Some? then k.fatal else if k.transient then Some(Unavailable) else None
  {
    KeptRaises(fs, done, |fs|);
    assert fs[..|fs|] == fs;
  }

  lemma {:induction false} FirstFatalAppend<R>(fs: seq<Flight<R>>, f: Flight<R>, done: map<nat, Outcome>)
    requires f.task in done
    ensures FirstFatal(fs + [f], done)
            == if FirstFatal(fs, done).Some? then FirstFatal(fs, done)
               else if Fatal(done[f.task]) then Some(done[f.task]) else None
  {
    if fs != [] {
      assert (fs + [f])[1..] == fs[1..] + [f];
      FirstFatalAppend(fs[1..], f, done);
    }
  }

  // ---- rounds ----

  /** A new round, open. */
  function Open<R(==)>(b: Book<R>, r: R): Book<R> {
    b.(rounds := b.rounds + [r], info := b.info[r := FRESH])
  }

  /** A claimed attempt starts in round `r`. */
  function Launch<R(==)>(b: Book<R>, r: R, t: nat): Book<R>
    requires r in b.info
  {
    b.(inFlight := b.inFlight + [Flight(t, r)],
       info := b.info[r := b.info[r].(attempts := b.info[r].attempts + {t})])
  }

  /** The batch of round `r` has been claimed. */
  function FinishDispatch<R(==)>(b: Book<R>, r: R): Book<R>
    requires r in b.info
  {
    Settle(b.(info := b.info[r := b.info[r].(dispatched := true)]), r)
  }

  function Soiled<R(==)>(info: map<R, RoundInfo>, rounds: seq<R>): map<R, RoundInfo> {
    map r | r in info :: if r in rounds then info[r].(dirty := true) else info[r]
  }

  /** The wait after `n` failures: doubled each time and capped. */
  function Delay(l: Limits, n: nat): real { Capped(l.base, l.cap, n) }

  /** The window a failure at `now` belongs to. */
  function Since<R>(b: Book<R>, now: real): real {
    if b.since.Some? then b.since.value else now
  }

  /** A persistence failure reaches the main loop at time `now` while round `r` dispatches: all
      open rounds become dirty, `r` is over, and the failure window opens if it was closed. */
  function Noted<R(==)>(b: Book<R>, r: R, now: real): Book<R>
    requires r in b.info
  {
    var soiled := b.(info := Soiled(b.info, b.rounds));
    var over := FinishDispatch(soiled, r);
    over.(since := Some(Since(over, now)))
  }

  /** The window is exhausted at `now`: the worker stops instead of backing off. */
  predicate Exhausted<R>(l: Limits, noted: Book<R>, now: real) {
    noted.since.Some? && now - noted.since.value >= l.window
  }

  // ---- shutdown ----

  /** `_cancel` on everything in flight: no attempt is left, in flight or in its round. */
  function Grounded<R(==)>(b: Book<R>): Book<R> {
    b.(inFlight := [],
       info := map r | r in b.info :: b.info[r].(attempts := b.info[r].attempts - TasksIn(b.inFlight, r)))
  }

  function TasksIn<R(==)>(fs: seq<Flight<R>>, r: R): set<nat> {
    set i | 0 <= i < |fs| && fs[i].round == r :: fs[i].task
  }
}
