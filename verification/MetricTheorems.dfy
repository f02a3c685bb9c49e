/**
 What metric evidence keeps of the rows it was made from.
 */
module MetricTheorems {
  import opened KeyOrder
  import opened Rounding
  import opened MetricEvidence

  // ---- no point is lost ----

  function Total(rows: seq<Row>, ks: seq<string>): nat {
    if ks == [] then 0 else |Points(rows, ks[0])| + Total(rows, ks[1..])
  }

  /** One row more counts once, in the series of its key. */
  lemma {:induction false} TotalNext(rows: seq<Row>, n: nat, ks: seq<string>)
    requires n < |rows| && DistinctKeys(ks)
    ensures Total(rows[..n + 1], ks) == Total(rows[..n], ks) + (if KeyOf(rows[n]) in ks then 1 else 0)
  {
    if ks != [] {
      assert DistinctKeys(ks[1..]) by {
        assert forall i :: 0 <= i < |ks| - 1 ==> ks[1..][i] == ks[i + 1];
      }
      TotalNext(rows, n, ks[1..]);
      PointsNext(rows, n, ks[0]);
      HeadOnce(ks);
    }
  }

  lemma HeadOnce(ks: seq<string>)
    requires DistinctKeys(ks) && ks != []
    ensures ks[0] !in ks[1..]
  {
  }

  lemma {:induction false} TotalIsAll(rows: seq<Row>, n: nat, ks: seq<string>)
    requires n <= |rows| && DistinctKeys(ks) && forall i :: 0 <= i < n ==> KeyOf(rows[i]) in ks
    ensures Total(rows[..n], ks) == n
  {
    if n == 0 {
      TotalNothing(ks);
      assert rows[..0] == [];
    } else {
      TotalIsAll(rows, n - 1, ks);
      TotalNext(rows, n - 1, ks);
    }
  }

  lemma {:induction false} TotalNothing(ks: seq<string>)
    ensures Total([], ks) == 0
  {
    if ks != [] {
      TotalNothing(ks[1..]);
    }
  }

  function CountOf(fs: seq<Fact>): nat { if fs == [] then 0 else fs[0].count + CountOf(fs[1..]) }

  lemma {:induction false} CountsAreTotals(rows: seq<Row>, ks: seq<string>)
    requires forall k :: k in ks ==> Points(rows, k) != []
    ensures CountOf(Facts(rows, ks)) == Total(rows, ks)
  {
    if ks != [] {
      CountsAreTotals(rows, ks[1..]);
    }
  }

  lemma RowHasKey(rows: seq<Row>, i: nat)
    requires i < |rows|
    ensures Points(rows, KeyOf(rows[i])) != []
  {
    PointsNext(rows, i, KeyOf(rows[i]));
    PointsPrefix(rows, i + 1, KeyOf(rows[i]));
  }

  lemma AscendingDistinct(ks: seq<string>)
    requires Ascending(ks)
    ensures DistinctKeys(ks)
  {
    forall i, j | 0 <= i < j < |ks|
      ensures ks[i] != ks[j]
    {
      BelowTotal(ks[i], ks[j]);
    }
  }

  /** The point counts add up to the number of rows. */
  lemma PointsConserved(rows: seq<Row>, q: Query)
    ensures CountOf(EvidenceOf(rows, q).facts) == |rows|
  {
    var ks := Sort(Keys(rows));
    SortedKeys(rows);
    AscendingDistinct(ks);
    forall i | 0 <= i < |rows|
      ensures KeyOf(rows[i]) in ks
    {
      RowHasKey(rows, i);
    }
    TotalIsAll(rows, |rows|, ks);
    assert rows[..|rows|] == rows;
    CountsAreTotals(rows, ks);
  }

  // ---- every series ----

  lemma {:induction false} MinMax(ps: seq<Point>, i: nat)
    requires i < |ps|
    ensures MinValue(ps) <= ps[i].value <= MaxValue(ps)
  {
    if |ps| > 1 {
      if i > 0 {
        MinMax(ps[1..], i - 1);
      } else {
        MinMax(ps[1..], 0);
      }
    }
  }

  /** The smallest and the largest value do occur. */
  lemma {:induction false} MinMaxOccur(ps: seq<Point>)
    requires ps != []
    ensures exists i :: 0 <= i < |ps| && ps[i].value == MinValue(ps)
    ensures exists i :: 0 <= i < |ps| && ps[i].value == MaxValue(ps)
  {
    if |ps| == 1 {
      assert ps[0].value == MinValue(ps);
    } else {
      MinMaxOccur(ps[1..]);
      var i :| 0 <= i < |ps[1..]| && ps[1..][i].value == MinValue(ps[1..]);
      var j :| 0 <= j < |ps[1..]| && ps[1..][j].value == MaxValue(ps[1..]);
      assert ps[i + 1].value == MinValue(ps[1..]) && ps[j + 1].value == MaxValue(ps[1..]);
      assert ps[0].value == ps[0].value;
    }
  }

  /** A fact after rounding: the extremes enclose the first and the latest value, and the change
      is within a millionth of the difference of the two. */
  predicate Coherent(f: Fact) {
    && f.count > 0
    && f.min <= f.first <= f.max && f.min <= f.latest <= f.max
    && -UNIT <= f.delta - (f.latest - f.first) <= UNIT
    && (f.trend == Up ==> f.first <= f.latest) && (f.trend == Down ==> f.latest <= f.first)
  }

  lemma SummaryCoherent(ps: seq<Point>)
    requires ps != []
    ensures Coherent(Summary(ps)) && Summary(ps).count == |ps|
  {
    var first, latest := ps[0].value, ps[|ps| - 1].value;
    MinMax(ps, 0);
    MinMax(ps, |ps| - 1);
    RoundedMonotone(MinValue(ps), first);
    RoundedMonotone(MinValue(ps), latest);
    RoundedMonotone(first, MaxValue(ps));
    RoundedMonotone(latest, MaxValue(ps));
    DifferenceClose(first, latest);
    RoundsToZero(latest - first);
    if first <= latest {
      RoundedMonotone(first, latest);
    } else {
      RoundedMonotone(latest, first);
    }
  }

  /** The trend tells more than half a millionth of change, and nothing else. */
  lemma TrendIff(ps: seq<Point>)
    requires ps != []
    ensures var change := ps[|ps| - 1].value - ps[0].value;
            && (Summary(ps).trend == Up <==> change > UNIT / 2.0)
            && (Summary(ps).trend == Down <==> change < -UNIT / 2.0)
  {
    RoundsToZero(ps[|ps| - 1].value - ps[0].value);
  }

  /** A flat trend does not mean equal figures: both ends may round apart. */
  lemma FlatButApart()
    ensures exists ps: seq<Point> :: ps != [] && Summary(ps).trend == Flat && Summary(ps).first != Summary(ps).latest
  {
    var ps := [Point(0, 0.0000004), Point(1, 0.0000006)];
    assert ps[|ps| - 1].value - ps[0].value == 0.0000002;
    TrendIff(ps);
    assert (0.0000004 * SCALE).Floor == 0 && (0.0000006 * SCALE).Floor == 0;
    assert Summary(ps).first == 0.0 && Summary(ps).latest == 0.000001;
  }

  function Least(a: real, b: real): real { if a <= b then a else b }

  function Greatest(a: real, b: real): real { if a <= b then b else a }

  /** The rounded ends of a series differ exactly if a half-way point between two millionths separates
      them, whatever the trend; behind a flat trend they then differ by one millionth. */
  lemma FiguresApartIff(ps: seq<Point>)
    requires ps != []
    ensures var a, b, f := ps[0].value, ps[|ps| - 1].value, Summary(ps);
            && (f.first != f.latest <==> Separated(Least(a, b) * SCALE, Greatest(a, b) * SCALE))
            && (f.trend == Flat && f.first < f.latest ==> f.latest == f.first + UNIT)
            && (f.trend == Flat && f.latest < f.first ==> f.first == f.latest + UNIT)
  {
    var a, b := ps[0].value, ps[|ps| - 1].value;
    RoundedApartIff(Least(a, b), Greatest(a, b));
    DifferenceClose(a, b);
    if Summary(ps).trend == Flat {
      assert Rounded(b - a) == 0.0;
      OneMillionth(Millionths(a), Millionths(b));
    }
  }

  lemma OneMillionth(m: int, n: int)
    requires -UNIT <= n as real / SCALE - m as real / SCALE <= UNIT
    ensures m < n ==> n as real / SCALE == m as real / SCALE + UNIT
    ensures n < m ==> m as real / SCALE == n as real / SCALE + UNIT
  {
    assert -1.0 <= (n - m) as real <= 1.0;
  }

  lemma {:induction false} FactsAt(rows: seq<Row>, ks: seq<string>, i: nat)
    requires i < |ks| && forall k :: k in ks ==> Points(rows, k) != []
    ensures Facts(rows, ks)[i] == Summary(Points(rows, ks[i]))
  {
    if i > 0 {
      FactsAt(rows, ks[1..], i - 1);
    }
  }

  lemma {:induction false} PointsInWindow(rows: seq<Row>, q: Query, k: string)
    requires forall i :: 0 <= i < |rows| ==> RowOk(q, rows[i])
    ensures forall j :: 0 <= j < |Points(rows, k)| ==> q.startMs <= Points(rows, k)[j].at <= q.endMs
  {
    if rows != [] {
      PointsInWindow(rows[..|rows| - 1], q, k);
    }
  }

  /** Fact `i` belongs to the `i`-th key in ascending order, and its series lies in the window, in
      strict order of time and within the limit. */
  lemma EverySeries(rows: seq<Row>, q: Query, i: nat)
    requires Accepted(rows, q) && i < |EvidenceOf(rows, q).facts|
    ensures var ks := Sort(Keys(rows)); var ps := Points(rows, ks[i]);
            && |EvidenceOf(rows, q).facts| == |ks| && Ascending(ks)
            && ps != [] && EvidenceOf(rows, q).facts[i] == Summary(ps) && Coherent(Summary(ps))
            && Rising(ps) && |ps| <= q.maxPoints
            && (forall j :: 0 <= j < |ps| ==> q.startMs <= ps[j].at <= q.endMs)
  {
    var ks := Sort(Keys(rows));
    SortedKeys(rows);
    assert ks[i] in ks;
    FactsAt(rows, ks, i);
    SummaryCoherent(Points(rows, ks[i]));
    PointsInWindow(rows, q, ks[i]);
    KeysIff(rows, ks[i]);
  }

  // ---- the order of the rows ----

  lemma {:induction false} SameFacts(a: seq<Row>, b: seq<Row>, ks: seq<string>)
    requires forall k :: Points(a, k) == Points(b, k)
    requires forall k :: k in ks ==> Points(a, k) != []
    ensures Facts(a, ks) == Facts(b, ks)
  {
    if ks != [] {
      SameFacts(a, b, ks[1..]);
    }
  }

  lemma {:induction false} DistinctCount(a: seq<string>, b: seq<string>)
    requires DistinctKeys(a) && DistinctKeys(b) && forall x :: x in a ==> x in b
    ensures |a| <= |b|
    decreases |a|
  {
    if a != [] {
      assert a[0] in a;
      var i :| 0 <= i < |b| && b[i] == a[0];
      var rest := b[..i] + b[i + 1..];
      assert forall j :: 0 <= j < |rest| ==> rest[j] == b[if j < i then j else j + 1];
      HeadOnce(a);
      forall x | x in a[1..]
        ensures x in rest
      {
        assert x in a;
        var j :| 0 <= j < |b| && b[j] == x;
        assert j != i;
        assert x == rest[if j < i then j else j - 1];
      }
      assert forall j :: 0 <= j < |a| - 1 ==> a[1..][j] == a[j + 1];
      DistinctCount(a[1..], rest);
    }
  }

  lemma SameRowsOk(a: seq<Row>, b: seq<Row>, q: Query)
    requires multiset(a) == multiset(b) && forall i :: 0 <= i < |a| ==> RowOk(q, a[i])
    ensures forall i :: 0 <= i < |b| ==> RowOk(q, b[i])
  {
    forall i | 0 <= i < |b|
      ensures RowOk(q, b[i])
    {
      assert b[i] in multiset(a);
      assert b[i] in a;
    }
  }

  /** The evidence is deterministic: how the series are interleaved matters neither to acceptance nor to
      what comes out. */
  lemma InterleavingDoesNotMatter(a: seq<Row>, b: seq<Row>, q: Query)
    requires multiset(a) == multiset(b) && forall k :: Points(a, k) == Points(b, k)
    ensures EvidenceOf(a, q) == EvidenceOf(b, q)
    ensures Accepted(a, q) <==> Accepted(b, q)
  {
    SortedKeys(a);
    SortedKeys(b);
    AscendingUnique(Sort(Keys(a)), Sort(Keys(b)));
    SameFacts(a, b, Sort(Keys(a)));
    forall k
      ensures k in Keys(a) <==> k in Keys(b)
    {
      KeysIff(a, k);
      KeysIff(b, k);
    }
    KeysDistinct(a);
    KeysDistinct(b);
    DistinctCount(Keys(a), Keys(b));
    DistinctCount(Keys(b), Keys(a));
    if forall i :: 0 <= i < |a| ==> RowOk(q, a[i]) {
      SameRowsOk(a, b, q);
    }
    if forall i :: 0 <= i < |b| ==> RowOk(q, b[i]) {
      SameRowsOk(b, a, q);
    }
  }
}
