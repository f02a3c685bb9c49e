/**
 Reading a task that others keep changing: a projection counts only when the task was the same
 before and behind it; after three failed attempts the reader gives up.
 */
module StableRead {
  import opened Wrappers

  datatype Record = Record(version: nat, status: nat, body: string)

  /** The stored task over time, one entry for each moment; `None` where the task is unknown. */
  type Timeline = seq<Option<Record>>

  const ATTEMPTS := 3

  /** What the store promises: versions never fall, and any change raises them. */
  predicate Versioned(h: Timeline) {
    forall i, j :: 0 <= i < j < |h| && h[i].Some? && h[j].Some? ==>
                     h[i].value.version <= h[j].value.version
                     && (h[i].value.version == h[j].value.version ==> h[i] == h[j])
  }

  /** A task that is gone does not come back. */
  predicate GoneForGood(h: Timeline) { forall i, j :: 0 <= i < j < |h| && h[i].None? ==> h[j].None? }

  /** The moments of the reads: the first one, and one behind each projection. */
  predicate Moments(h: Timeline, at: seq<nat>) {
    && |at| == ATTEMPTS + 1 && (forall i :: 0 <= i < |at| ==> at[i] < |h|)
    && (forall i, j :: 0 <= i < j < |at| ==> at[i] <= at[j])
  }

  /** The task is there and does not change from one moment to another. */
  predicate Constant(h: Timeline, from: nat, till: nat)
    requires from <= till < |h|
  {
    h[from].Some? && forall m :: from <= m <= till ==> h[m] == h[from]
  }

  /** Two equal reads mean that nothing changed in between. */
  lemma EqualReads(h: Timeline, from: nat, till: nat)
    requires Versioned(h) && GoneForGood(h) && from <= till < |h| && h[from].Some? && h[till].Some?
    ensures h[from].value.version == h[till].value.version <==> Constant(h, from, till)
  {
  }

  /** The plan and ledger rows kept in other stores, one entry for each moment. */
  type Rows = seq<string>

  /** When each attempt loads such rows: any number of times, each between the two reads. */
  predicate Loads(h: Timeline, at: seq<nat>, loads: seq<seq<nat>>)
    requires Moments(h, at)
  {
    |loads| == ATTEMPTS && forall i, k :: 0 <= i < ATTEMPTS && 0 <= k < |loads[i]| ==> at[i] <= loads[i][k] <= at[i + 1]
  }

  function Loaded(rows: Rows, moments: seq<nat>): (r: seq<string>)
    requires forall k :: 0 <= k < |moments| ==> moments[k] < |rows|
  {
    seq(|moments|, k requires 0 <= k < |moments| => rows[moments[k]])
  }

  /** A projection is made of the task as it was read and of the rows loaded for it; its status is the
      status of that read. */
  datatype View = View(status: nat, of: Record, loaded: seq<string>, begun: nat, ended: nat)

  datatype Reading = Stable(view: View, record: Record) | NotFound | Unstable

  /** Whether attempt `i` sees one and the same task before and behind its projection. */
  predicate Quiet(h: Timeline, at: seq<nat>, i: nat)
    requires Moments(h, at) && i < ATTEMPTS
  {
    Constant(h, at[i], at[i + 1])
  }

  /** The attempt that decides. */
  predicate Decides(h: Timeline, at: seq<nat>, i: nat)
    requires Moments(h, at)
  {
    i < ATTEMPTS && Quiet(h, at, i) && forall j: nat :: j < i ==> !Quiet(h, at, j)
  }

  /** What a reading means: the first quiet attempt decides; without one, a task that is gone is
      not found and a task that is still there has changed in every attempt. */
  ghost predicate Faithful(h: Timeline, rows: Rows, at: seq<nat>, loads: seq<seq<nat>>, r: Reading)
    requires |rows| == |h| && Moments(h, at) && Loads(h, at, loads)
  {
    match r
    case Stable(v, record) =>
      exists i: nat :: Decides(h, at, i) && h[at[i]] == Some(record)
                       && v == View(record.status, record, Loaded(rows, loads[i]), at[i], at[i + 1])
    case NotFound =>
      exists i: nat :: i <= ATTEMPTS && h[at[i]].None? && forall j: nat :: j < i && j < ATTEMPTS ==> !Quiet(h, at, j)
    case Unstable => h[at[ATTEMPTS]].Some? && forall j: nat :: j < ATTEMPTS ==> !Quiet(h, at, j)
  }

  /** `get_task` and `_stable_card`: the loop over the attempts. */
  method ReadStable(h: Timeline, rows: Rows, at: seq<nat>, loads: seq<seq<nat>>) returns (r: Reading)
    requires Versioned(h) && GoneForGood(h) && |rows| == |h| && Moments(h, at) && Loads(h, at, loads)
    ensures Faithful(h, rows, at, loads, r)
  {
    if h[at[0]].None? {
      return NotFound;
    }
    var record := h[at[0]].value;
    for i := 0 to ATTEMPTS
      invariant h[at[i]] == Some(record)
      invariant forall j: nat :: j < i ==> !Quiet(h, at, j)
    {
      var candidate := View(record.status, record, Loaded(rows, loads[i]), at[i], at[i + 1]);
      if h[at[i + 1]].None? {
        assert !Quiet(h, at, i);
        return NotFound;
      }
      var after := h[at[i + 1]].value;
      EqualReads(h, at[i], at[i + 1]);
      if record.version == after.version && candidate.status == after.status {
        assert Decides(h, at, i);
        return Stable(candidate, after);
      }
      record := after;
    }
    r := Unstable;
  }

  lemma DecidesOnce(h: Timeline, at: seq<nat>, i: nat, k: nat)
    requires Moments(h, at) && Decides(h, at, i) && Decides(h, at, k)
    ensures i == k
  {
  }

  /** A task that rests once between two reads is read; otherwise the answer says whether the task
      is gone. */
  lemma ReadingIff(h: Timeline, rows: Rows, at: seq<nat>, loads: seq<seq<nat>>, r: Reading)
    requires Versioned(h) && GoneForGood(h) && |rows| == |h| && Moments(h, at) && Loads(h, at, loads)
    requires Faithful(h, rows, at, loads, r)
    ensures |at| == 4 && (r.Stable? <==> Quiet(h, at, 0) || Quiet(h, at, 1) || Quiet(h, at, 2))
    ensures r.NotFound? ==> h[at[ATTEMPTS]].None?
    ensures r.Unstable? ==> h[at[ATTEMPTS]].Some?
  {
  }

  /** A reading has one meaning: two faithful answers to the same reads and loads are the same. */
  lemma ReadingsAgree(h: Timeline, rows: Rows, at: seq<nat>, loads: seq<seq<nat>>, a: Reading, b: Reading)
    requires Versioned(h) && GoneForGood(h) && |rows| == |h| && Moments(h, at) && Loads(h, at, loads)
    requires Faithful(h, rows, at, loads, a) && Faithful(h, rows, at, loads, b)
    ensures a == b
  {
    ReadingIff(h, rows, at, loads, a);
    ReadingIff(h, rows, at, loads, b);
    if a.Stable? && b.Stable? {
      var i: nat :| Decides(h, at, i) && h[at[i]] == Some(a.record)
                    && a.view == View(a.record.status, a.record, Loaded(rows, loads[i]), at[i], at[i + 1]);
      var k: nat :| Decides(h, at, k) && h[at[k]] == Some(b.record)
                    && b.view == View(b.record.status, b.record, Loaded(rows, loads[k]), at[k], at[k + 1]);
      DecidesOnce(h, at, i, k);
    }
  }

  /** The rows of a task change only with its version. */
  predicate ChangeTogether(h: Timeline, rows: Rows)
    requires |rows| == |h|
  {
    forall m, n :: 0 <= m < n < |h| && h[m].Some? && h[m] == h[n] ==> rows[m] == rows[n]
  }

  /** A stable answer to some reads and loads. */
  ghost predicate StableAnswer(h: Timeline, rows: Rows, at: seq<nat>, loads: seq<seq<nat>>, r: Reading) {
    && |rows| == |h| && Moments(h, at) && Loads(h, at, loads) && r.Stable? && Faithful(h, rows, at, loads, r)
  }

  /** The rows of the view are those that were there when the task was read. */
  predicate OneMoment(rows: Rows, v: View) {
    v.begun < |rows| && forall k :: 0 <= k < |v.loaded| ==> v.loaded[k] == rows[v.begun]
  }

  lemma ShowsOneMoment(h: Timeline, rows: Rows, at: seq<nat>, loads: seq<seq<nat>>, r: Reading)
    requires Versioned(h) && GoneForGood(h) && StableAnswer(h, rows, at, loads, r) && ChangeTogether(h, rows)
    ensures OneMoment(rows, r.view)
  {
    var i: nat :| Decides(h, at, i) && h[at[i]] == Some(r.record)
                  && r.view == View(r.record.status, r.record, Loaded(rows, loads[i]), at[i], at[i + 1]);
    forall k | 0 <= k < |loads[i]|
      ensures rows[loads[i][k]] == rows[at[i]]
    {
      assert h[loads[i][k]] == h[at[i]];
    }
  }

  /** Rows that changed under an unchanged task: reads on both sides do not see it. */
  lemma ShowsTwoMoments(h: Timeline, rows: Rows, m: nat, n: nat)
    returns (at: seq<nat>, loads: seq<seq<nat>>, r: Reading)
    requires Versioned(h) && GoneForGood(h) && |rows| == |h|
    requires m < n < |h| && h[m].Some? && h[m] == h[n] && rows[m] != rows[n]
    ensures StableAnswer(h, rows, at, loads, r) && !OneMoment(rows, r.view)
  {
    at, loads := [m, n, n, n], [[n], [], []];
    EqualReads(h, m, n);
    r := Stable(View(h[m].value.status, h[m].value, Loaded(rows, loads[0]), m, n), h[m].value);
    assert Decides(h, at, 0);
    assert r.view.loaded[0] == rows[n];
  }

  /** Equal reads of the task make every stable view one of a single moment exactly if the other rows
      change only with the version. */
  lemma OneMomentIff(h: Timeline, rows: Rows)
    requires Versioned(h) && GoneForGood(h) && |rows| == |h|
    ensures ChangeTogether(h, rows)
            <==> forall at, loads, r :: StableAnswer(h, rows, at, loads, r) ==> OneMoment(rows, r.view)
  {
    if ChangeTogether(h, rows) {
      forall at, loads, r | StableAnswer(h, rows, at, loads, r)
        ensures OneMoment(rows, r.view)
      {
        ShowsOneMoment(h, rows, at, loads, r);
      }
    } else {
      var m, n :| 0 <= m < n < |h| && h[m].Some? && h[m] == h[n] && rows[m] != rows[n];
      var at, loads, r := ShowsTwoMoments(h, rows, m, n);
    }
  }
}
