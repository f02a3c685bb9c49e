/**
 What metric evidence says about the rows it was made from, row by row: which rows make a series, and which
 of their values each figure is.
 */
module MetricMeaning {
  import opened KeyOrder
  import opened Rounding
  import opened MetricEvidence
  import opened MetricTheorems

  // ---- rows ----

  /** Row `i` belongs to series `k`. */
  predicate Of(rows: seq<Row>, k: string, i: int) {
    0 <= i < |rows| && "series_key" in rows[i] && rows[i]["series_key"] == Text(k)
  }

  function Places(rows: seq<Row>, k: string): set<int> { set i | 0 <= i < |rows| && Of(rows, k, i) }

  /** A row that can become evidence: all fields, for this metric and instance, at a whole time in the window,
      with a finite value. */
  predicate GoodRow(q: Query, row: Row) {
    && "series_key" in row && "metric_name" in row && "instance" in row && "timestamp_ms" in row && "value" in row
    && row["series_key"].Text? && row["metric_name"] == Text(q.metric) && row["instance"] == Text(q.instance)
    && row["timestamp_ms"].Whole? && q.startMs <= row["timestamp_ms"].n && row["timestamp_ms"].n <= q.endMs
    && (row["value"].Whole? || row["value"].Number?)
  }

  lemma GoodRowIs(q: Query, row: Row)
    ensures RowOk(q, row) <==> GoodRow(q, row)
  {
  }

  // ---- the places of a series ----

  /** The rows of a series, in their order. */
  function Positions(rows: seq<Row>, k: string): (ps: seq<nat>)
    ensures forall j :: 0 <= j < |ps| ==> ps[j] < |rows|
    ensures forall j, l :: 0 <= j < l < |ps| ==> ps[j] < ps[l]
  {
    if rows == [] then []
    else
      var front := Positions(rows[..|rows| - 1], k);
      if KeyOf(rows[|rows| - 1]) == k then front + [|rows| - 1] else front
  }

  lemma {:induction false} PositionsAre(rows: seq<Row>, k: string)
    ensures |Points(rows, k)| == |Positions(rows, k)|
    ensures forall j :: 0 <= j < |Positions(rows, k)| ==> Points(rows, k)[j] == PointOf(rows[Positions(rows, k)[j]])
    ensures forall i: nat :: i in Positions(rows, k) <==> i < |rows| && KeyOf(rows[i]) == k
  {
    if rows != [] {
      PositionsAre(rows[..|rows| - 1], k);
    }
  }

  lemma {:induction false} DistinctSize(ps: seq<nat>)
    requires forall j, l :: 0 <= j < l < |ps| ==> ps[j] < ps[l]
    ensures |set i: int | i in ps| == |ps|
  {
    if ps != [] {
      var front, last := ps[..|ps| - 1], ps[|ps| - 1];
      DistinctSize(front);
      assert (set i: int | i in ps) == (set i: int | i in front) + {last as int};
    }
  }

  lemma PlacesAre(rows: seq<Row>, k: string)
    requires forall i :: 0 <= i < |rows| ==> "series_key" in rows[i] && rows[i]["series_key"].Text?
    ensures Places(rows, k) == set i: int | i in Positions(rows, k)
    ensures |Places(rows, k)| == |Points(rows, k)|
  {
    PositionsAre(rows, k);
    DistinctSize(Positions(rows, k));
    forall i
      ensures i in Places(rows, k) <==> i in Positions(rows, k)
    {
    }
  }

  // ---- figures ----

  /** `y` is `x` at six decimals, a tie going to the even digit. */
  ghost predicate SixDecimals(x: real, y: real) {
    exists m: int :: Millionth(x, y, m)
  }

  predicate Millionth(x: real, y: real, m: int) { NearestTo(x * 1000000.0, m) && y == m as real / 1000000.0 }

  predicate NearestTo(x: real, m: int) {
    && m as real - 0.5 <= x <= m as real + 0.5
    && (x == m as real + 0.5 || x == m as real - 0.5 ==> m % 2 == 0)
  }

  lemma RoundedIs(x: real)
    ensures SixDecimals(x, Rounded(x))
  {
    assert Millionth(x, Rounded(x), Millionths(x));
  }

  /** A value of the series that no other one of it is below, rounded. */
  ghost predicate IsMin(rows: seq<Row>, k: string, y: real) {
    exists i :: Of(rows, k, i) && MinAt(rows, k, i, y)
  }

  ghost predicate MinAt(rows: seq<Row>, k: string, i: int, y: real)
    requires 0 <= i < |rows|
  {
    && SixDecimals(ValueAt(rows[i]), y)
    && forall j :: Of(rows, k, j) ==> ValueAt(rows[i]) <= ValueAt(rows[j])
  }

  ghost predicate IsMax(rows: seq<Row>, k: string, y: real) {
    exists i :: Of(rows, k, i) && MaxAt(rows, k, i, y)
  }

  ghost predicate MaxAt(rows: seq<Row>, k: string, i: int, y: real)
    requires 0 <= i < |rows|
  {
    && SixDecimals(ValueAt(rows[i]), y)
    && forall j :: Of(rows, k, j) ==> ValueAt(rows[j]) <= ValueAt(rows[i])
  }

  function ValueAt(row: Row): real {
    if "value" in row && row["value"].Whole? then row["value"].n as real
    else if "value" in row && row["value"].Number? then row["value"].x
    else 0.0
  }

  /** Rows `a` and `b` are the first and the last one of the series. */
  ghost predicate Ends(rows: seq<Row>, k: string, a: int, b: int) {
    Of(rows, k, a) && Of(rows, k, b) && forall i :: Of(rows, k, i) ==> a <= i <= b
  }

  /** What a fact says of its series. */
  ghost predicate FactTells(rows: seq<Row>, k: string, f: Fact) {
    && f.count == |Places(rows, k)| && IsMin(rows, k, f.min) && IsMax(rows, k, f.max)
    && exists a, b :: Ends(rows, k, a, b) && EndsTell(rows, a, b, f)
  }

  ghost predicate EndsTell(rows: seq<Row>, a: int, b: int, f: Fact)
    requires 0 <= a < |rows| && 0 <= b < |rows|
  {
    && SixDecimals(ValueAt(rows[a]), f.first) && SixDecimals(ValueAt(rows[b]), f.latest)
    && SixDecimals(ValueAt(rows[b]) - ValueAt(rows[a]), f.delta)
    && f.trend == (if f.delta > 0.0 then Up else if f.delta < 0.0 then Down else Flat)
  }

  // ---- the evidence ----

  predicate GoodRows(rows: seq<Row>, q: Query) { forall i :: 0 <= i < |rows| ==> GoodRow(q, rows[i]) }

  /** In a good text of rows the places of a series are its positions, and its points their values. */
  lemma PointAt(rows: seq<Row>, q: Query, k: string, j: nat)
    requires GoodRows(rows, q) && j < |Positions(rows, k)|
    ensures |Points(rows, k)| == |Positions(rows, k)| && Of(rows, k, Positions(rows, k)[j])
    ensures Points(rows, k)[j].value == ValueAt(rows[Positions(rows, k)[j]])
    ensures Points(rows, k)[j].at == rows[Positions(rows, k)[j]]["timestamp_ms"].n
  {
    PositionsAre(rows, k);
    assert Positions(rows, k)[j] in Positions(rows, k);
    assert GoodRow(q, rows[Positions(rows, k)[j]]);
  }

  lemma PositionOf(rows: seq<Row>, q: Query, k: string, i: int) returns (j: nat)
    requires GoodRows(rows, q) && Of(rows, k, i)
    ensures j < |Positions(rows, k)| && Positions(rows, k)[j] == i
  {
    PositionsAre(rows, k);
    assert GoodRow(q, rows[i]);
    j :| 0 <= j < |Positions(rows, k)| && Positions(rows, k)[j] == i;
  }

  lemma MinTells(rows: seq<Row>, q: Query, k: string)
    requires GoodRows(rows, q) && Points(rows, k) != []
    ensures IsMin(rows, k, Rounded(MinValue(Points(rows, k))))
  {
    var ps := Points(rows, k);
    PositionsAre(rows, k);
    MinMaxOccur(ps);
    var j :| 0 <= j < |ps| && ps[j].value == MinValue(ps);
    PointAt(rows, q, k, j);
    var i := Positions(rows, k)[j];
    RoundedIs(MinValue(ps));
    forall o | Of(rows, k, o)
      ensures ValueAt(rows[i]) <= ValueAt(rows[o])
    {
      var l := PositionOf(rows, q, k, o);
      PointAt(rows, q, k, l);
      MinMax(ps, l);
    }
    assert MinAt(rows, k, i, Rounded(MinValue(ps)));
  }

  lemma MaxTells(rows: seq<Row>, q: Query, k: string)
    requires GoodRows(rows, q) && Points(rows, k) != []
    ensures IsMax(rows, k, Rounded(MaxValue(Points(rows, k))))
  {
    var ps := Points(rows, k);
    PositionsAre(rows, k);
    MinMaxOccur(ps);
    var j :| 0 <= j < |ps| && ps[j].value == MaxValue(ps);
    PointAt(rows, q, k, j);
    var i := Positions(rows, k)[j];
    RoundedIs(MaxValue(ps));
    forall o | Of(rows, k, o)
      ensures ValueAt(rows[o]) <= ValueAt(rows[i])
    {
      var l := PositionOf(rows, q, k, o);
      PointAt(rows, q, k, l);
      MinMax(ps, l);
    }
    assert MaxAt(rows, k, i, Rounded(MaxValue(ps)));
  }

  lemma SeriesEnds(rows: seq<Row>, q: Query, k: string)
    requires GoodRows(rows, q) && Positions(rows, k) != []
    ensures var places := Positions(rows, k); Ends(rows, k, places[0], places[|places| - 1])
  {
    var places := Positions(rows, k);
    PointAt(rows, q, k, 0);
    PointAt(rows, q, k, |places| - 1);
    forall i | Of(rows, k, i)
      ensures places[0] <= i <= places[|places| - 1]
    {
      var j := PositionOf(rows, q, k, i);
    }
  }

  lemma FiguresTell(rows: seq<Row>, a: nat, b: nat, ps: seq<Point>)
    requires a < |rows| && b < |rows| && ps != []
    requires ps[0].value == ValueAt(rows[a]) && ps[|ps| - 1].value == ValueAt(rows[b])
    ensures EndsTell(rows, a, b, Summary(ps))
  {
    RoundedIs(ValueAt(rows[a]));
    RoundedIs(ValueAt(rows[b]));
    RoundedIs(ValueAt(rows[b]) - ValueAt(rows[a]));
  }

  lemma EndsAre(rows: seq<Row>, q: Query, k: string)
    requires GoodRows(rows, q) && Points(rows, k) != []
    ensures exists a, b :: Ends(rows, k, a, b) && EndsTell(rows, a, b, Summary(Points(rows, k)))
  {
    var ps, places := Points(rows, k), Positions(rows, k);
    PositionsAre(rows, k);
    PointAt(rows, q, k, 0);
    PointAt(rows, q, k, |ps| - 1);
    SeriesEnds(rows, q, k);
    FiguresTell(rows, places[0], places[|ps| - 1], ps);
  }

  lemma FactIs(rows: seq<Row>, q: Query, k: string)
    requires GoodRows(rows, q) && Points(rows, k) != []
    ensures FactTells(rows, k, Summary(Points(rows, k)))
  {
    MinTells(rows, q, k);
    MaxTells(rows, q, k);
    EndsAre(rows, q, k);
    forall i | 0 <= i < |rows|
      ensures "series_key" in rows[i] && rows[i]["series_key"].Text?
    {
      assert GoodRow(q, rows[i]);
    }
    PlacesAre(rows, k);
  }

  /** The keys of all rows. */
  function KeySet(rows: seq<Row>): set<string> {
    set i | 0 <= i < |rows| && "series_key" in rows[i] && rows[i]["series_key"].Text? :: rows[i]["series_key"].s
  }

  lemma {:induction false} SeqSize(ks: seq<string>)
    requires DistinctKeys(ks)
    ensures |set k | k in ks| == |ks|
  {
    if ks != [] {
      var front, last := ks[..|ks| - 1], ks[|ks| - 1];
      SeqSize(front);
      assert (set k | k in ks) == (set k | k in front) + {last};
    }
  }

  lemma KeysAre(rows: seq<Row>, q: Query)
    requires GoodRows(rows, q)
    ensures (set k | k in Keys(rows)) == KeySet(rows) && |KeySet(rows)| == |Keys(rows)|
    ensures forall k :: k in Keys(rows) <==> exists i :: Of(rows, k, i)
  {
    KeysDistinct(rows);
    SeqSize(Keys(rows));
    forall k
      ensures k in Keys(rows) <==> exists i :: Of(rows, k, i)
      ensures k in Keys(rows) <==> k in KeySet(rows)
    {
      KeysIff(rows, k);
      PositionsAre(rows, k);
      if k in Keys(rows) {
        PointAt(rows, q, k, 0);
      }
      if i :| Of(rows, k, i) {
        var j := PositionOf(rows, q, k, i);
      }
      if k in KeySet(rows) {
        var i :| 0 <= i < |rows| && "series_key" in rows[i] && rows[i]["series_key"].Text?
               && rows[i]["series_key"].s == k;
        assert Of(rows, k, i);
      }
    }
  }

  /** Within a series the times rise from row to row. */
  predicate TimesRise(rows: seq<Row>, q: Query)
    requires GoodRows(rows, q)
  {
    forall i, j :: 0 <= i < j < |rows| && GoodRow(q, rows[i]) && GoodRow(q, rows[j])
                   && rows[i]["series_key"] == rows[j]["series_key"] ==>
                     rows[i]["timestamp_ms"].n < rows[j]["timestamp_ms"].n
  }

  lemma {:induction false} RisingApart(ps: seq<Point>, i: nat, j: nat)
    requires Rising(ps) && i < j < |ps|
    ensures ps[i].at < ps[j].at
  {
    if i + 1 < j {
      RisingApart(ps, i, j - 1);
    }
  }

  lemma TimesRiseSeries(rows: seq<Row>, q: Query, k: string)
    requires GoodRows(rows, q) && TimesRise(rows, q)
    ensures Rising(Points(rows, k))
  {
    PositionsAre(rows, k);
    forall j | 0 < j < |Points(rows, k)|
      ensures Points(rows, k)[j - 1].at < Points(rows, k)[j].at
    {
      PointAt(rows, q, k, j - 1);
      PointAt(rows, q, k, j);
      var a, b := Positions(rows, k)[j - 1], Positions(rows, k)[j];
      assert a < b && GoodRow(q, rows[a]) && GoodRow(q, rows[b]);
    }
  }

  lemma Earlier(ps: seq<nat>, a: nat, b: nat)
    requires forall j, l :: 0 <= j < l < |ps| ==> ps[j] < ps[l]
    requires a < |ps| && b < |ps| && ps[a] < ps[b]
    ensures a < b
  {
  }

  lemma SeriesRiseTimes(rows: seq<Row>, q: Query)
    requires GoodRows(rows, q) && forall k :: Rising(Points(rows, k))
    ensures TimesRise(rows, q)
  {
    forall i, j | 0 <= i < j < |rows| && GoodRow(q, rows[i]) && GoodRow(q, rows[j])
                  && rows[i]["series_key"] == rows[j]["series_key"]
      ensures rows[i]["timestamp_ms"].n < rows[j]["timestamp_ms"].n
    {
      var k := rows[i]["series_key"].s;
      assert Of(rows, k, i) && Of(rows, k, j);
      var a := PositionOf(rows, q, k, i);
      var b := PositionOf(rows, q, k, j);
      PointAt(rows, q, k, a);
      PointAt(rows, q, k, b);
      assert Rising(Points(rows, k));
      Earlier(Positions(rows, k), a, b);
      RisingApart(Points(rows, k), a, b);
    }
  }

  lemma GoodRowsAre(rows: seq<Row>, q: Query)
    ensures (forall i :: 0 <= i < |rows| ==> RowOk(q, rows[i])) <==> GoodRows(rows, q)
  {
    forall i | 0 <= i < |rows|
      ensures RowOk(q, rows[i]) <==> GoodRow(q, rows[i])
    {
      GoodRowIs(q, rows[i]);
    }
  }

  /** No series has more rows than the limit. */
  ghost predicate Limited(rows: seq<Row>, q: Query) { forall k :: |Places(rows, k)| <= q.maxPoints }

  lemma SeriesOkMeans(rows: seq<Row>, q: Query)
    requires GoodRows(rows, q) && q.maxPoints > 0
    requires forall k :: k in Keys(rows) ==> SeriesOk(q, Points(rows, k))
    ensures TimesRise(rows, q) && Limited(rows, q)
  {
    forall k
      ensures Rising(Points(rows, k)) && |Places(rows, k)| <= q.maxPoints
    {
      SeriesSize(rows, q, k);
      KeysIff(rows, k);
      assert k in Keys(rows) ==> SeriesOk(q, Points(rows, k));
    }
    SeriesRiseTimes(rows, q);
  }

  lemma MeansSeriesOk(rows: seq<Row>, q: Query, k: string)
    requires GoodRows(rows, q) && TimesRise(rows, q) && Limited(rows, q)
    ensures SeriesOk(q, Points(rows, k))
  {
    SeriesSize(rows, q, k);
    TimesRiseSeries(rows, q, k);
    assert |Places(rows, k)| <= q.maxPoints;
  }

  /** Rows become evidence exactly if all are good, the times of each series rise, no series has too many of
      them, and there are not too many series. */
  lemma AcceptedMeans(rows: seq<Row>, q: Query)
    ensures Accepted(rows, q)
            <==> && q.maxSeries > 0 && q.maxPoints > 0 && GoodRows(rows, q) && TimesRise(rows, q)
                 && Limited(rows, q) && |KeySet(rows)| <= q.maxSeries
  {
    GoodRowsAre(rows, q);
    if GoodRows(rows, q) && q.maxPoints > 0 {
      KeysAre(rows, q);
      if Accepted(rows, q) {
        SeriesOkMeans(rows, q);
      }
      if TimesRise(rows, q) && Limited(rows, q) {
        forall k | k in Keys(rows)
          ensures SeriesOk(q, Points(rows, k))
        {
          MeansSeriesOk(rows, q, k);
        }
      }
    }
  }

  lemma SeriesSize(rows: seq<Row>, q: Query, k: string)
    requires GoodRows(rows, q)
    ensures |Places(rows, k)| == |Points(rows, k)|
  {
    forall i | 0 <= i < |rows|
      ensures "series_key" in rows[i] && rows[i]["series_key"].Text?
    {
      assert GoodRow(q, rows[i]);
    }
    PlacesAre(rows, k);
  }

  /** The facts belong to the keys of the rows in ascending order, each tells what its series is, and the evidence
      is called sampled exactly if a limit was met. */
  lemma EvidenceMeans(rows: seq<Row>, q: Query) returns (ks: seq<string>)
    requires Accepted(rows, q)
    ensures Ascending(ks) && |ks| == |EvidenceOf(rows, q).facts| == |KeySet(rows)|
    ensures forall k :: k in ks <==> exists i :: Of(rows, k, i)
    ensures forall j :: 0 <= j < |ks| ==> FactTells(rows, ks[j], EvidenceOf(rows, q).facts[j])
    ensures EvidenceOf(rows, q).sampled
            <==> |KeySet(rows)| == q.maxSeries || exists k :: k in ks && |Places(rows, k)| == q.maxPoints
  {
    AcceptedMeans(rows, q);
    ks := Sort(Keys(rows));
    SortedKeys(rows);
    KeysAre(rows, q);
    AscendingDistinct(ks);
    SeqSize(ks);
    forall k
      ensures k in ks <==> k in Keys(rows)
      ensures |Places(rows, k)| == |Points(rows, k)|
    {
      SortMembers(Keys(rows), k);
      SeriesSize(rows, q, k);
    }
    assert (set k | k in ks) == (set k | k in Keys(rows));
    forall j | 0 <= j < |ks|
      ensures FactTells(rows, ks[j], EvidenceOf(rows, q).facts[j])
    {
      assert ks[j] in ks;
      FactsAt(rows, ks, j);
      FactIs(rows, q, ks[j]);
    }
  }
}
