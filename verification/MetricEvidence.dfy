/**
 From the flat rows of a metric query to one summary per series: rows are checked one by one and
 grouped by their series key, and every series is reduced to rounded figures.
 */
module MetricEvidence {
  import opened Wrappers
  import opened KeyOrder
  import opened Rounding

  datatype Json = Null | Flag(on: bool) | Whole(n: int) | Number(x: real) | NotFinite | Text(s: string)

  type Row = map<string, Json>

  const METRIC_FIELDS := {"series_key", "metric_name", "instance", "timestamp_ms", "value"}

  datatype Query = Query(metric: string, instance: string, startMs: int, endMs: int, maxSeries: int, maxPoints: int)

  datatype Point = Point(at: int, value: real)

  predicate Finite(j: Json) { j.Whole? || j.Number? }

  function ValueOf(j: Json): real { if j.Whole? then j.n as real else if j.Number? then j.x else 0.0 }

  /** One row on its own. */
  predicate RowOk(q: Query, row: Row) {
    && METRIC_FIELDS <= row.Keys
    && row["series_key"].Text? && row["metric_name"] == Text(q.metric) && row["instance"] == Text(q.instance)
    && row["timestamp_ms"].Whole? && q.startMs <= row["timestamp_ms"].n <= q.endMs
    && Finite(row["value"])
  }

  function KeyOf(row: Row): string {
    if "series_key" in row && row["series_key"].Text? then row["series_key"].s else ""
  }

  function PointOf(row: Row): Point {
    Point(if "timestamp_ms" in row && row["timestamp_ms"].Whole? then row["timestamp_ms"].n else 0,
          if "value" in row then ValueOf(row["value"]) else 0.0)
  }

  /** The points of one series, in the order of the rows. */
  function Points(rows: seq<Row>, k: string): seq<Point> {
    if rows == [] then []
    else
      var row, front := rows[|rows| - 1], Points(rows[..|rows| - 1], k);
      if KeyOf(row) == k then front + [PointOf(row)] else front
  }

  /** The series keys, in the order of their first rows. */
  function Keys(rows: seq<Row>): seq<string> {
    if rows == [] then []
    else
      var k, front := KeyOf(rows[|rows| - 1]), Keys(rows[..|rows| - 1]);
      if k in front then front else front + [k]
  }

  predicate Rising(ps: seq<Point>) { forall i :: 0 < i < |ps| ==> ps[i - 1].at < ps[i].at }

  predicate SeriesOk(q: Query, ps: seq<Point>) { Rising(ps) && |ps| <= q.maxPoints }

  /** When rows become evidence. */
  predicate Accepted(rows: seq<Row>, q: Query) {
    && q.maxSeries > 0 && q.maxPoints > 0
    && (forall i :: 0 <= i < |rows| ==> RowOk(q, rows[i]))
    && (forall k :: k in Keys(rows) ==> SeriesOk(q, Points(rows, k)))
    && |Keys(rows)| <= q.maxSeries
  }

  // ---- one series ----

  datatype Trend = Up | Down | Flat

  datatype Fact = Fact(count: nat, first: real, latest: real, min: real, max: real, delta: real, trend: Trend)

  function MinValue(ps: seq<Point>): real
    requires ps != []
  {
    if |ps| == 1 then ps[0].value
    else
      var rest := MinValue(ps[1..]);
      if ps[0].value < rest then ps[0].value else rest
  }

  function MaxValue(ps: seq<Point>): real
    requires ps != []
  {
    if |ps| == 1 then ps[0].value
    else
      var rest := MaxValue(ps[1..]);
      if ps[0].value > rest then ps[0].value else rest
  }

  function TrendOf(delta: real): Trend { if delta > 0.0 then Up else if delta < 0.0 then Down else Flat }

  function Summary(ps: seq<Point>): Fact
    requires ps != []
  {
    var first, latest := ps[0].value, ps[|ps| - 1].value;
    var delta := Rounded(latest - first);
    Fact(|ps|, Rounded(first), Rounded(latest), Rounded(MinValue(ps)), Rounded(MaxValue(ps)), delta, TrendOf(delta))
  }

  datatype Evidence = Evidence(facts: seq<Fact>, sampled: bool)

  lemma {:induction false} KeysIff(rows: seq<Row>, k: string)
    ensures k in Keys(rows) <==> Points(rows, k) != []
  {
    if rows != [] {
      KeysIff(rows[..|rows| - 1], k);
    }
  }

  lemma {:induction false} KeysDistinct(rows: seq<Row>)
    ensures DistinctKeys(Keys(rows))
  {
    if rows != [] {
      KeysDistinct(rows[..|rows| - 1]);
    }
  }

  /** The facts of some keys, in their order. */
  function Facts(rows: seq<Row>, ks: seq<string>): (fs: seq<Fact>)
    requires forall k :: k in ks ==> Points(rows, k) != []
    ensures |fs| == |ks|
  {
    if ks == [] then [] else [Summary(Points(rows, ks[0]))] + Facts(rows, ks[1..])
  }

  /** A limit was met, so that there may be more. */
  predicate Sampled(rows: seq<Row>, q: Query) {
    |Keys(rows)| == q.maxSeries || exists k :: k in Keys(rows) && |Points(rows, k)| == q.maxPoints
  }

  lemma SortedKeys(rows: seq<Row>)
    ensures Ascending(Sort(Keys(rows))) && forall k :: k in Sort(Keys(rows)) <==> Points(rows, k) != []
  {
    KeysDistinct(rows);
    SortAscending(Keys(rows));
    forall k
      ensures k in Sort(Keys(rows)) <==> Points(rows, k) != []
    {
      SortMembers(Keys(rows), k);
      KeysIff(rows, k);
    }
  }

  function EvidenceOf(rows: seq<Row>, q: Query): Evidence {
    SortedKeys(rows);
    Evidence(Facts(rows, Sort(Keys(rows))), Sampled(rows, q))
  }

  // ---- the loops ----

  lemma {:induction false} PointsPrefix(rows: seq<Row>, n: nat, k: string)
    requires n <= |rows|
    ensures Points(rows[..n], k) <= Points(rows, k)
  {
    if n < |rows| {
      PointsPrefix(rows[..|rows| - 1], n, k);
      assert rows[..|rows| - 1][..n] == rows[..n];
    } else {
      assert rows[..n] == rows;
    }
  }

  lemma SeriesOkPrefix(q: Query, p: seq<Point>, all: seq<Point>)
    requires p <= all && SeriesOk(q, all)
    ensures SeriesOk(q, p)
  {
  }

  /** A series that is refused at some row stays refused. */
  lemma RefusedStays(rows: seq<Row>, q: Query, n: nat)
    requires n < |rows| && (RowOk(q, rows[n]) ==> !SeriesOk(q, Points(rows[..n + 1], KeyOf(rows[n]))))
    ensures !Accepted(rows, q)
  {
    var k := KeyOf(rows[n]);
    PointsPrefix(rows, n + 1, k);
    PointsNext(rows, n, k);
    KeysIff(rows, k);
    if SeriesOk(q, Points(rows, k)) {
      SeriesOkPrefix(q, Points(rows[..n + 1], k), Points(rows, k));
    }
  }

  lemma PointsNext(rows: seq<Row>, n: nat, k: string)
    requires n < |rows|
    ensures Points(rows[..n + 1], k) == Points(rows[..n], k) + (if KeyOf(rows[n]) == k then [PointOf(rows[n])] else [])
    ensures Keys(rows[..n + 1]) == Keys(rows[..n])
        + (if KeyOf(rows[n]) in Keys(rows[..n]) then [] else [KeyOf(rows[n])])
  {
    assert rows[..n + 1][..n] == rows[..n];
  }

  lemma SeriesOkNext(q: Query, ps: seq<Point>, p: Point)
    requires SeriesOk(q, ps)
    ensures SeriesOk(q, ps + [p]) <==> (ps == [] || ps[|ps| - 1].at < p.at) && |ps| + 1 <= q.maxPoints
  {
    var n := ps + [p];
    assert n[|ps|] == p;
    assert forall i :: 0 <= i < |ps| ==> n[i] == ps[i];
  }

  /** What the grouping loop has built from the first `n` rows. */
  ghost predicate Grouped(rows: seq<Row>, q: Query, n: nat, order: seq<string>, grouped: map<string, seq<Point>>) {
    && n <= |rows| && order == Keys(rows[..n])
    && (forall k :: k in grouped <==> k in order)
    && (forall k :: k in grouped ==> grouped[k] == Points(rows[..n], k) && SeriesOk(q, grouped[k]))
    && (forall i :: 0 <= i < n ==> RowOk(q, rows[i]))
  }

  /** The point of one row more joins its series; no other series changes. */
  lemma GroupedPoints(rows: seq<Row>, q: Query, n: nat, order: seq<string>, grouped: map<string, seq<Point>>, k: string)
    requires Grouped(rows, q, n, order, grouped) && n < |rows|
    ensures Points(rows[..n + 1], k)
         == (if k in grouped then grouped[k] else []) + (if k == KeyOf(rows[n]) then [PointOf(rows[n])] else [])
  {
    KeysIff(rows[..n], k);
    PointsNext(rows, n, k);
  }

  /** A good row keeps the groups as they should be. */
  lemma GroupedNext(rows: seq<Row>, q: Query, n: nat, order: seq<string>, grouped: map<string, seq<Point>>, k: string,
                    ps: seq<Point>)
    requires Grouped(rows, q, n, order, grouped) && n < |rows|
    requires k == KeyOf(rows[n]) && ps == Points(rows[..n + 1], k) && SeriesOk(q, ps) && RowOk(q, rows[n])
    ensures Grouped(rows, q, n + 1, if k in grouped then order else order + [k], grouped[k := ps])
  {
    PointsNext(rows, n, k);
    var more := grouped[k := ps];
    forall x | x in more
      ensures more[x] == Points(rows[..n + 1], x) && SeriesOk(q, more[x])
    {
      GroupedPoints(rows, q, n, order, grouped, x);
    }
  }

  /** The loop over the rows. */
  method Group(rows: seq<Row>, q: Query) returns (order: seq<string>, grouped: map<string, seq<Point>>, ok: bool)
    requires q.maxPoints > 0
    ensures if ok then Grouped(rows, q, |rows|, order, grouped) else !Accepted(rows, q)
  {
    order, grouped := [], map[];
    for i := 0 to |rows|
      invariant Grouped(rows, q, i, order, grouped)
    {
      var row := rows[i];
      GroupedPoints(rows, q, i, order, grouped, KeyOf(row));
      if !RowOk(q, row) {
        RefusedStays(rows, q, i);
        return order, grouped, false;
      }
      var k, p := KeyOf(row), PointOf(row);
      var points := if k in grouped then grouped[k] else [];
      SeriesOkNext(q, points, p);
      if points != [] && p.at <= points[|points| - 1].at {
        RefusedStays(rows, q, i);
        return order, grouped, false;
      }
      if |points| + 1 > q.maxPoints {
        RefusedStays(rows, q, i);
        return order, grouped, false;
      }
      GroupedNext(rows, q, i, order, grouped, k, points + [p]);
      order := if k in grouped then order else order + [k];
      grouped := grouped[k := points + [p]];
    }
    return order, grouped, true;
  }

  /** The loop over the sorted keys. */
  method Summarise(rows: seq<Row>, ks: seq<string>, grouped: map<string, seq<Point>>) returns (facts: seq<Fact>)
    requires forall k :: k in ks ==> k in grouped && grouped[k] == Points(rows, k) && grouped[k] != []
    ensures facts == Facts(rows, ks)
  {
    facts := [];
    assert ks[0..] == ks;
    for i := 0 to |ks|
      invariant facts + Facts(rows, ks[i..]) == Facts(rows, ks)
    {
      assert ks[i..][0] == ks[i] && ks[i..][1..] == ks[i + 1..];
      var fact := Summary(grouped[ks[i]]);
      assert facts + ([fact] + Facts(rows, ks[i + 1..])) == (facts + [fact]) + Facts(rows, ks[i + 1..]);
      facts := facts + [fact];
    }
  }

  method AnyFull(rows: seq<Row>, order: seq<string>, grouped: map<string, seq<Point>>, q: Query) returns (full: bool)
    requires forall k :: k in order ==> k in grouped && grouped[k] == Points(rows, k)
    ensures full <==> exists k :: k in order && |Points(rows, k)| == q.maxPoints
  {
    full := false;
    for i := 0 to |order|
      invariant full <==> exists j :: 0 <= j < i && |Points(rows, order[j])| == q.maxPoints
    {
      full := full || |grouped[order[i]]| == q.maxPoints;
    }
  }

  /** `build_metric_evidence`: rows become evidence exactly when they are acceptable. */
  method Build(rows: seq<Row>, q: Query) returns (r: Option<Evidence>)
    ensures r.Some? <==> Accepted(rows, q)
    ensures r.Some? ==> r.value == EvidenceOf(rows, q)
  {
    if q.maxSeries <= 0 || q.maxPoints <= 0 {
      return None;
    }
    var order, grouped, ok := Group(rows, q);
    if !ok {
      return None;
    }
    assert rows[..|rows|] == rows;
    if |order| > q.maxSeries {
      return None;
    }
    SortedKeys(rows);
    forall k | k in Sort(order)
      ensures k in order
    {
      SortMembers(order, k);
    }
    var facts := Summarise(rows, Sort(order), grouped);
    var full := AnyFull(rows, order, grouped, q);
    return Some(Evidence(facts, |order| == q.maxSeries || full));
  }
}
