/**
 What a reap makes of the outcomes of the finished attempts: what it raises, and what it leaves in the
 books, said over the outcomes themselves.
 */
module WorkerOutcomes {
  import opened Wrappers
  import opened WorkerBook

  // ---- the finished attempts ----

  predicate Serious(o: Outcome) { o == IntegrityError || o == OtherError }

  /** The attempt neither returned nor was cancelled. */
  predicate Broke(o: Outcome) {
    match o
    case Cancelled => false
    case Returned(_) => false
    case Unavailable => true
    case IntegrityError => true
    case OtherError => true
  }

  /** The first serious outcome in the order of the claims. */
  predicate FirstSerious<R>(fs: seq<Flight<R>>, done: map<nat, Outcome>, i: nat) {
    && i < |fs| && fs[i].task in done && Serious(done[fs[i].task])
    && forall j :: 0 <= j < i && fs[j].task in done ==> !Serious(done[fs[j].task])
  }

  lemma FinishedHead<R>(f: Flight<R>, fs: seq<Flight<R>>, done: map<nat, Outcome>)
    ensures Finished([f] + fs, done) == (if f.task in done then [f] else []) + Finished(fs, done)
  {
    assert ([f] + fs)[1..] == fs;
  }

  predicate NoneSerious<R>(fs: seq<Flight<R>>, done: map<nat, Outcome>) {
    forall i :: 0 <= i < |fs| && fs[i].task in done ==> !Serious(done[fs[i].task])
  }

  predicate SomeUnavailable<R>(fs: seq<Flight<R>>, done: map<nat, Outcome>) {
    exists i :: 0 <= i < |fs| && fs[i].task in done && done[fs[i].task] == Unavailable
  }

  lemma {:induction false} FirstFatalIs<R>(fs: seq<Flight<R>>, done: map<nat, Outcome>) returns (i: nat)
    ensures FirstFatal(fs, done).Some? ==>
              FirstSerious(fs, done, i) && done[fs[i].task] == FirstFatal(fs, done).value
    ensures FirstFatal(fs, done).None? ==> NoneSerious(fs, done)
  {
    i := 0;
    if fs != [] && !(fs[0].task in done && Serious(done[fs[0].task])) {
      var rest := fs[1..];
      i := FirstFatalIs(rest, done);
      i := i + 1;
      assert forall k :: 1 <= k < |fs| ==> fs[k] == rest[k - 1];
    }
  }

  lemma FirstSeriousOnce<R>(fs: seq<Flight<R>>, done: map<nat, Outcome>, i: nat, j: nat)
    requires FirstSerious(fs, done, i) && FirstSerious(fs, done, j)
    ensures i == j
  {
  }

  /** A reap raises the first serious outcome in claim order, if there is one; else that the persistence was
      unavailable, if some attempt ended so; and else nothing. */
  lemma ReapRaises<R>(fs: seq<Flight<R>>, done: map<nat, Outcome>)
    ensures var raised := Raised(fs, done);
            && (forall i: nat :: FirstSerious(fs, done, i) ==> raised == Some(done[fs[i].task]))
            && (NoneSerious(fs, done) ==> raised == if SomeUnavailable(fs, done) then Some(Unavailable) else None)
    ensures Raised(Finished(fs, done), done) == Raised(fs, done)
  {
    FinishedRaises(fs, done);
    var j := FirstFatalIs(fs, done);
    forall i: nat | FirstSerious(fs, done, i)
      ensures Raised(fs, done) == Some(done[fs[i].task])
    {
      if FirstFatal(fs, done).Some? {
        FirstSeriousOnce(fs, done, i, j);
      }
    }
  }

  /** One of the two cases of `ReapRaises` is there. */
  lemma SeriousOrNot<R>(fs: seq<Flight<R>>, done: map<nat, Outcome>)
    ensures NoneSerious(fs, done) <==> !exists i: nat :: FirstSerious(fs, done, i)
  {
    var i := FirstFatalIs(fs, done);
  }

  // ---- the rounds ----

  /** Some attempt of the round finished and broke. */
  predicate SomeBroke<R(==)>(fs: seq<Flight<R>>, done: map<nat, Outcome>, r: R) {
    exists i :: 0 <= i < |fs| && fs[i].round == r && fs[i].task in done && Broke(done[fs[i].task])
  }

  /** How many attempts of the round finished with a result that counts. */
  function Counted<R(==)>(fs: seq<Flight<R>>, done: map<nat, Outcome>, r: R): nat {
    if fs == [] then 0
    else
      (if fs[0].round == r && fs[0].task in done && done[fs[0].task] == Returned(true) then 1 else 0)
      + Counted(fs[1..], done, r)
  }

  /** The attempts of the round that finished. */
  function Gone<R(==)>(fs: seq<Flight<R>>, done: map<nat, Outcome>, r: R): set<nat> {
    set i | 0 <= i < |fs| && fs[i].round == r && fs[i].task in done :: fs[i].task
  }

  /** What the finished attempts `fs` make of the round `before`. */
  predicate Becomes<R(==)>(before: RoundInfo, after: RoundInfo, fs: seq<Flight<R>>, done: map<nat, Outcome>, r: R) {
    && (after.dirty <==> before.dirty || SomeBroke(fs, done, r))
    && after.completed == before.completed + Counted(fs, done, r)
    && after.attempts == before.attempts - Gone(fs, done, r)
    && after.dispatched == before.dispatched
  }

  lemma PopInfo<R>(b: Book<R>, f: Flight<R>, o: Outcome, r: R)
    requires Sound(b) && f in b.inFlight && r in b.info
    ensures RoundOf(b.inFlight, f.task) == f.round && f.round in b.info
    ensures var n := Pop(b, f.task, o);
            && n.info.Keys == b.info.Keys
            && n.info[r] == if r != f.round then b.info[r]
                            else RoundInfo(b.info[r].attempts - {f.task},
                                           b.info[r].completed + (if o == Returned(true) then 1 else 0),
                                           b.info[r].dispatched, b.info[r].dirty || Broke(o))
  {
    RoundOfFlight(b.inFlight, f);
  }

  lemma BecomesHead<R>(before: RoundInfo, mid: RoundInfo, after: RoundInfo, fs: seq<Flight<R>>,
                       done: map<nat, Outcome>, r: R)
    requires fs != [] && fs[0].task in done && Becomes(mid, after, fs[1..], done, r)
    requires mid == if r != fs[0].round then before
                    else RoundInfo(before.attempts - {fs[0].task},
                                   before.completed + (if done[fs[0].task] == Returned(true) then 1 else 0),
                                   before.dispatched, before.dirty || Broke(done[fs[0].task]))
    ensures Becomes(before, after, fs, done, r)
  {
    assert forall i :: 1 <= i < |fs| ==> fs[i] == fs[1..][i - 1];
    assert SomeBroke(fs, done, r) <==>
             SomeBroke(fs[1..], done, r) || (fs[0].round == r && Broke(done[fs[0].task])) by {
      if i :| 0 <= i < |fs[1..]| && fs[1..][i].round == r && fs[1..][i].task in done && Broke(done[fs[1..][i].task]) {
        assert fs[i + 1] == fs[1..][i];
      }
    }
    GoneHead(fs, done, r);
  }

  lemma GoneHead<R>(fs: seq<Flight<R>>, done: map<nat, Outcome>, r: R)
    requires fs != []
    ensures Gone(fs, done, r)
         == Gone(fs[1..], done, r) + if fs[0].round == r && fs[0].task in done then {fs[0].task} else {}
  {
    forall t | t in Gone(fs[1..], done, r)
      ensures t in Gone(fs, done, r)
    {
      var i :| 0 <= i < |fs[1..]| && fs[1..][i].round == r && fs[1..][i].task in done && fs[1..][i].task == t;
      assert fs[i + 1] == fs[1..][i];
    }
    forall t | t in Gone(fs, done, r)
      ensures t in Gone(fs[1..], done, r) || (fs[0].round == r && t == fs[0].task)
    {
      var i :| 0 <= i < |fs| && fs[i].round == r && fs[i].task in done && fs[i].task == t;
      if i > 0 {
        assert fs[1..][i - 1] == fs[i];
      }
    }
  }

  lemma {:induction false} PopAllInfo<R>(b: Book<R>, fs: seq<Flight<R>>, done: map<nat, Outcome>, r: R)
    requires Sound(b) && Poppable(b, fs, done) && r in b.info
    ensures r in PopAll(b, fs, done).info && Becomes(b.info[r], PopAll(b, fs, done).info[r], fs, done, r)
    decreases |fs|
  {
    if fs != [] {
      PopKeepsPoppable(b, fs, done);
      PopInfo(b, fs[0], done[fs[0].task], r);
      var n := Pop(b, fs[0].task, done[fs[0].task]);
      PopAllInfo(n, fs[1..], done, r);
      BecomesHead(b.info[r], n.info[r], PopAll(n, fs[1..], done).info[r], fs, done, r);
    }
  }

  lemma {:induction false} SettleAllInfo<R>(b: Book<R>, rs: seq<R>)
    ensures SettleAll(b, rs).info == b.info && SettleAll(b, rs).inFlight == b.inFlight
    decreases |rs|
  {
    if rs != [] {
      SettleAllInfo(Settle(b, rs[0]), rs[1..]);
    }
  }

  /** Counting over the finished attempts is counting over all. */
  lemma FinishedSame<R>(fs: seq<Flight<R>>, done: map<nat, Outcome>, r: R)
    ensures Counted(Finished(fs, done), done, r) == Counted(fs, done, r)
    ensures Gone(Finished(fs, done), done, r) == Gone(fs, done, r)
    ensures SomeBroke(Finished(fs, done), done, r) <==> SomeBroke(fs, done, r)
  {
    CountedFinished(fs, done, r);
    var finished := Finished(fs, done);
    forall t
      ensures t in Gone(finished, done, r) <==> t in Gone(fs, done, r)
    {
      if t in Gone(finished, done, r) {
        var i :| 0 <= i < |finished| && finished[i].round == r && finished[i].task in done && finished[i].task == t;
        var k :| 0 <= k < |fs| && fs[k] == finished[i];
      }
      if t in Gone(fs, done, r) {
        var i :| 0 <= i < |fs| && fs[i].round == r && fs[i].task in done && fs[i].task == t;
        var k :| 0 <= k < |finished| && finished[k] == fs[i];
      }
    }
    if i :| 0 <= i < |fs| && fs[i].round == r && fs[i].task in done && Broke(done[fs[i].task]) {
      var k :| 0 <= k < |finished| && finished[k] == fs[i];
    }
    if i :| 0 <= i < |finished| && finished[i].round == r && finished[i].task in done && Broke(done[finished[i].task]) {
      var k :| 0 <= k < |fs| && fs[k] == finished[i];
    }
  }

  lemma {:induction false} CountedFinished<R>(fs: seq<Flight<R>>, done: map<nat, Outcome>, r: R)
    ensures Counted(Finished(fs, done), done, r) == Counted(fs, done, r)
  {
    if fs != [] {
      CountedFinished(fs[1..], done, r);
      FinishedHead(fs[0], fs[1..], done);
      assert fs == [fs[0]] + fs[1..];
      var rest := Finished(fs[1..], done);
      assert ([fs[0]] + rest)[1..] == rest && [] + rest == rest;
    }
  }

  /** A reap leaves each round dirty exactly if it was before or one of its finished attempts broke; counts
      the results that were true; and takes exactly the finished attempts out of it. */
  lemma ReapInfo<R>(b: Book<R>, done: map<nat, Outcome>, r: R)
    requires Sound(b) && r in b.info
    ensures r in Reap(b, done).info && Becomes(b.info[r], Reap(b, done).info[r], b.inFlight, done, r)
  {
    var fs := Finished(b.inFlight, done);
    FinishedDistinct(b.inFlight, done);
    PopAllInfo(b, fs, done, r);
    SettleAllInfo(PopAll(b, fs, done), RoundsOf(fs));
    FinishedSame(b.inFlight, done, r);
  }

  // ---- settling ----

  predicate Once<R(==)>(rs: seq<R>) { forall i, j :: 0 <= i < j < |rs| ==> rs[i] != rs[j] }

  /** The round has been dispatched and has no attempt left. */
  predicate Over<R(==)>(b: Book<R>, r: R) { r in b.info && b.info[r].dispatched && b.info[r].attempts == {} }

  lemma {:induction false} RemoveOnce<R>(rs: seq<R>, r: R)
    requires Once(rs)
    ensures Once(Remove(rs, r)) && forall x :: x in Remove(rs, r) <==> x in rs && x != r
  {
    if rs != [] && rs[0] != r {
      var rest := rs[1..];
      RemoveOnce(rest, r);
      assert rs[0] !in Remove(rest, r);
    }
  }

  /** What settling `rs` makes of the books. */
  predicate Settles<R(==)>(b: Book<R>, n: Book<R>, rs: seq<R>) {
    && n.info == b.info && n.inFlight == b.inFlight && Once(n.rounds)
    && (forall r :: r in n.rounds ==> r in b.rounds)
    && (forall r :: r in b.rounds ==> (r in n.rounds <==> !(r in rs && Over(b, r))))
    && (if exists r :: r in b.rounds && r in rs && Over(b, r) && !b.info[r].dirty
        then n.since == None && n.failures == 0
        else n.since == b.since && n.failures == b.failures)
  }

  lemma SettleMeans<R>(b: Book<R>, r: R)
    requires Once(b.rounds)
    ensures Settles(b, Settle(b, r), [r])
  {
    RemoveOnce(b.rounds, r);
  }

  /** Settling rounds one behind the other closes exactly those of them that are open and over, and the
      failure window ends exactly if one of these is clean. */
  lemma {:induction false} SettleAllMeans<R>(b: Book<R>, rs: seq<R>)
    requires Once(b.rounds)
    ensures Settles(b, SettleAll(b, rs), rs)
    decreases |rs|
  {
    if rs != [] {
      var m := Settle(b, rs[0]);
      SettleMeans(b, rs[0]);
      SettleAllMeans(m, rs[1..]);
      SettlesOn(b, m, SettleAll(m, rs[1..]), rs);
    }
  }

  lemma SettlesOn<R>(b: Book<R>, m: Book<R>, n: Book<R>, rs: seq<R>)
    requires rs != [] && Settles(b, m, [rs[0]]) && Settles(m, n, rs[1..])
    ensures Settles(b, n, rs)
  {
    assert forall r :: r in rs <==> r == rs[0] || r in rs[1..];
    assert forall r :: Over(m, r) <==> Over(b, r);
  }

  /** A reap closes exactly the open rounds of finished attempts that are then dispatched and without
      attempts, and ends the failure window exactly if one of them is clean. */
  lemma ReapSettles<R>(b: Book<R>, done: map<nat, Outcome>) returns (popped: Book<R>)
    requires Sound(b) && Once(b.rounds)
    ensures popped.rounds == b.rounds && popped.since == b.since && popped.failures == b.failures
    ensures popped.info == Reap(b, done).info
    ensures Settles(popped, Reap(b, done), RoundsOf(Finished(b.inFlight, done)))
  {
    var fs := Finished(b.inFlight, done);
    FinishedDistinct(b.inFlight, done);
    popped := PopAll(b, fs, done);
    PopAllRest(b, fs, done);
    SettleAllMeans(popped, RoundsOf(fs));
  }

  lemma {:induction false} PopAllRest<R>(b: Book<R>, fs: seq<Flight<R>>, done: map<nat, Outcome>)
    requires Sound(b) && Poppable(b, fs, done)
    ensures var n := PopAll(b, fs, done); n.rounds == b.rounds && n.since == b.since && n.failures == b.failures
    decreases |fs|
  {
    if fs != [] {
      PopKeepsPoppable(b, fs, done);
      PopAllRest(Pop(b, fs[0].task, done[fs[0].task]), fs[1..], done);
    }
  }

  /** And exactly the finished attempts leave the flight. */
  lemma ReapFlights<R>(b: Book<R>, done: map<nat, Outcome>, f: Flight<R>)
    requires Sound(b)
    ensures f in Reap(b, done).inFlight <==> f in b.inFlight && f.task !in done
  {
    var fs := Finished(b.inFlight, done);
    FinishedDistinct(b.inFlight, done);
    PopAllFlights(b, fs, done, f);
    SettleAllInfo(PopAll(b, fs, done), RoundsOf(fs));
  }

  lemma {:induction false} PopAllFlights<R>(b: Book<R>, fs: seq<Flight<R>>, done: map<nat, Outcome>, f: Flight<R>)
    requires Sound(b) && Poppable(b, fs, done)
    ensures f in PopAll(b, fs, done).inFlight <==> f in b.inFlight && f !in fs
    decreases |fs|
  {
    if fs != [] {
      PopKeepsPoppable(b, fs, done);
      var n := Pop(b, fs[0].task, done[fs[0].task]);
      assert f in n.inFlight <==> f in b.inFlight && f != fs[0] by {
        if f in b.inFlight && f.task == fs[0].task {
          var i :| 0 <= i < |b.inFlight| && b.inFlight[i] == f;
          var j :| 0 <= j < |b.inFlight| && b.inFlight[j] == fs[0];
          assert i == j;
        }
      }
      PopAllFlights(n, fs[1..], done, f);
    }
  }

  // ---- order ----

  predicate Before<T(==)>(xs: seq<T>, x: T, y: T) { exists i, j :: 0 <= i < j < |xs| && xs[i] == x && xs[j] == y }

  /** What is left of a list stands in its old order. */
  predicate KeepsOrder<T(==)>(all: seq<T>, rest: seq<T>) {
    forall i, j :: 0 <= i < j < |rest| ==> Before(all, rest[i], rest[j])
  }

  lemma SameOrder<T>(all: seq<T>)
    ensures KeepsOrder(all, all)
  {
  }

  lemma OrderChains<T>(all: seq<T>, mid: seq<T>, rest: seq<T>)
    requires KeepsOrder(all, mid) && KeepsOrder(mid, rest)
    ensures KeepsOrder(all, rest)
  {
    forall i, j | 0 <= i < j < |rest|
      ensures Before(all, rest[i], rest[j])
    {
      assert Before(mid, rest[i], rest[j]);
      var a, b :| 0 <= a < b < |mid| && mid[a] == rest[i] && mid[b] == rest[j];
      assert Before(all, mid[a], mid[b]);
    }
  }

  /** A head in front of a list and of what is left of it. */
  lemma OrderBehind<T>(x: T, all: seq<T>, rest: seq<T>)
    requires KeepsOrder(all, rest) && forall y :: y in rest ==> y in all
    ensures KeepsOrder([x] + all, rest) && KeepsOrder([x] + all, [x] + rest)
  {
    forall i, j | 0 <= i < j < |rest|
      ensures Before([x] + all, rest[i], rest[j])
    {
      assert Before(all, rest[i], rest[j]);
      var a, b :| 0 <= a < b < |all| && all[a] == rest[i] && all[b] == rest[j];
      assert ([x] + all)[a + 1] == rest[i] && ([x] + all)[b + 1] == rest[j];
    }
    forall j | 0 <= j < |rest|
      ensures Before([x] + all, x, rest[j])
    {
      assert rest[j] in all;
      var b :| 0 <= b < |all| && all[b] == rest[j];
      assert ([x] + all)[0] == x && ([x] + all)[b + 1] == rest[j];
    }
    assert forall i :: 0 < i < |[x] + rest| ==> ([x] + rest)[i] == rest[i - 1];
  }

  lemma {:induction false} LandedOrder<R>(fs: seq<Flight<R>>, t: nat)
    ensures KeepsOrder(fs, Landed(fs, t))
  {
    if fs != [] {
      LandedOrder(fs[1..], t);
      OrderBehind(fs[0], fs[1..], Landed(fs[1..], t));
      assert fs == [fs[0]] + fs[1..];
    }
  }

  lemma {:induction false} RemoveOrder<R>(rs: seq<R>, r: R)
    ensures KeepsOrder(rs, Remove(rs, r))
  {
    if rs != [] {
      assert rs == [rs[0]] + rs[1..];
      if rs[0] == r {
        SameOrder(rs[1..]);
        OrderBehind(rs[0], rs[1..], rs[1..]);
      } else {
        RemoveOrder(rs[1..], r);
        OrderBehind(rs[0], rs[1..], Remove(rs[1..], r));
      }
    }
  }

  lemma {:induction false} PopAllOrder<R>(b: Book<R>, fs: seq<Flight<R>>, done: map<nat, Outcome>)
    requires Sound(b) && Poppable(b, fs, done)
    ensures KeepsOrder(b.inFlight, PopAll(b, fs, done).inFlight)
    decreases |fs|
  {
    if fs == [] {
      SameOrder(b.inFlight);
    } else {
      PopKeepsPoppable(b, fs, done);
      var n := Pop(b, fs[0].task, done[fs[0].task]);
      LandedOrder(b.inFlight, fs[0].task);
      PopAllOrder(n, fs[1..], done);
      OrderChains(b.inFlight, n.inFlight, PopAll(n, fs[1..], done).inFlight);
    }
  }

  lemma {:induction false} SettleAllOrder<R>(b: Book<R>, rs: seq<R>)
    ensures KeepsOrder(b.rounds, SettleAll(b, rs).rounds)
    decreases |rs|
  {
    SameOrder(b.rounds);
    if rs != [] {
      var n := Settle(b, rs[0]);
      RemoveOrder(b.rounds, rs[0]);
      SettleAllOrder(n, rs[1..]);
      OrderChains(b.rounds, n.rounds, SettleAll(n, rs[1..]).rounds);
    }
  }

  /** The attempts that stay in flight and the rounds that stay open keep their order: the claims stay in the
      order in which they were made. */
  lemma ReapKeepsOrder<R>(b: Book<R>, done: map<nat, Outcome>)
    requires Sound(b)
    ensures KeepsOrder(b.inFlight, Reap(b, done).inFlight) && KeepsOrder(b.rounds, Reap(b, done).rounds)
  {
    var fs := Finished(b.inFlight, done);
    FinishedDistinct(b.inFlight, done);
    PopAllOrder(b, fs, done);
    PopAllRest(b, fs, done);
    SettleAllInfo(PopAll(b, fs, done), RoundsOf(fs));
    SettleAllOrder(PopAll(b, fs, done), RoundsOf(fs));
  }

  // ---- a caught failure ----

  /** The failure handler makes every open round dirty, ends the current one, and opens the failure window
      now unless it is open. */
  lemma NotedMeans<R>(b: Book<R>, r: R, now: real)
    requires r in b.info && r in b.rounds && Once(b.rounds)
    ensures var n := Noted(b, r, now);
            && n.since == Some(if b.since.Some? then b.since.value else now) && n.failures == b.failures
            && n.inFlight == b.inFlight && n.info.Keys == b.info.Keys
            && (forall x :: x in b.info ==>
                  && (n.info[x].dirty <==> b.info[x].dirty || x in b.rounds)
                  && n.info[x].attempts == b.info[x].attempts && n.info[x].completed == b.info[x].completed
                  && (n.info[x].dispatched <==> b.info[x].dispatched || x == r))
            && (forall x :: x in n.rounds <==> x in b.rounds && (x == r ==> b.info[r].attempts != {}))
  {
    RemoveOnce(b.rounds, r);
  }

  // ---- a round from its opening to its end ----

  /** A new round is open, fresh and last. */
  lemma OpenMeans<R>(b: Book<R>, r: R)
    requires r !in b.info
    ensures var n := Open(b, r);
            && n.rounds == b.rounds + [r] && n.info.Keys == b.info.Keys + {r} && n.inFlight == b.inFlight
            && n.info[r].attempts == {} && n.info[r].completed == 0 && !n.info[r].dispatched && !n.info[r].dirty
            && (forall x :: x in b.info ==> n.info[x] == b.info[x])
            && n.since == b.since && n.failures == b.failures
  {
  }

  /** A claimed attempt is the last one in flight and belongs to its round; nothing else changes. */
  lemma LaunchMeans<R>(b: Book<R>, r: R, t: nat)
    requires r in b.info
    ensures var n := Launch(b, r, t);
            && n.inFlight == b.inFlight + [Flight(t, r)] && n.rounds == b.rounds && n.info.Keys == b.info.Keys
            && n.info[r].attempts == b.info[r].attempts + {t} && n.info[r].completed == b.info[r].completed
            && n.info[r].dispatched == b.info[r].dispatched && n.info[r].dirty == b.info[r].dirty
            && (forall x :: x in b.info && x != r ==> n.info[x] == b.info[x])
            && n.since == b.since && n.failures == b.failures
  {
  }

  /** The end of a dispatch marks the round, which is over at once if it has no attempts. */
  lemma FinishMeans<R>(b: Book<R>, r: R) returns (marked: Book<R>)
    requires r in b.info && Once(b.rounds)
    ensures marked.inFlight == b.inFlight && marked.rounds == b.rounds && marked.info.Keys == b.info.Keys
    ensures marked.since == b.since && marked.failures == b.failures && marked.info[r].dispatched
    ensures marked.info[r].attempts == b.info[r].attempts && marked.info[r].dirty == b.info[r].dirty
    ensures forall x :: x in b.info && x != r ==> marked.info[x] == b.info[x]
    ensures Settles(marked, FinishDispatch(b, r), [r])
  {
    marked := b.(info := b.info[r := b.info[r].(dispatched := true)]);
    SettleMeans(marked, r);
  }

  /** A cancellation takes every flight out, and each out of its round. */
  lemma GroundedMeans<R>(b: Book<R>, r: R)
    requires Sound(b) && r in b.info
    ensures var n := Grounded(b);
            && n.inFlight == [] && n.info.Keys == b.info.Keys && n.rounds == b.rounds
            && (forall t :: t in n.info[r].attempts <==> t in b.info[r].attempts && Flight(t, r) !in b.inFlight)
            && n.info[r].completed == b.info[r].completed && n.info[r].dirty == b.info[r].dirty
            && n.info[r].dispatched == b.info[r].dispatched
  {
    forall t
      ensures t in TasksIn(b.inFlight, r) <==> Flight(t, r) in b.inFlight
    {
      if Flight(t, r) in b.inFlight {
        var i :| 0 <= i < |b.inFlight| && b.inFlight[i] == Flight(t, r);
      }
    }
  }

  /** The worker gives up exactly if the window that holds the failure is at least as long as the limit. */
  lemma ExhaustedMeans<R>(l: Limits, b: Book<R>, r: R, now: real)
    requires r in b.info && r in b.rounds && Once(b.rounds)
    ensures Exhausted(l, Noted(b, r, now), now) <==> now - (if b.since.Some? then b.since.value else now) >= l.window
  {
    NotedMeans(b, r, now);
  }
}
