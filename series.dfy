/**
 * The line chart's data (createLineChart): one TimeSeries per sensor, created on the
 * sensor's first reading (putIfAbsent), and every reading added with addOrUpdate at the
 * whole second containing its timestamp. A TimeSeries keeps its points in ascending
 * order of period with at most one point per period; addOrUpdate on a period already
 * present replaces its value, so the last reading in input order wins.
 */
module TimeSeries {
  import opened Loader
  import opened Grouping

  /** One data item of a series: a second since the epoch and its value. */
  datatype Point = Point(second: int, value: real)

  /** new Second(new Date(ms)): the second containing the instant, rounding down. */
  function SecondOf(ms: int): (sec: int)
    ensures sec * 1000 <= ms < sec * 1000 + 1000
  {
    ms / 1000
  }

  /** Points in strictly ascending order of second. */
  predicate Ascending(ps: seq<Point>)
  {
    forall i, j :: 0 <= i < j < |ps| ==> ps[i].second < ps[j].second
  }

  /** The seconds that have a point. */
  function Seconds(ps: seq<Point>): set<int>
  {
    if ps == [] then {} else {ps[0].second} + Seconds(ps[1..])
  }

  /** getValue(period): the value of the first point at that second. */
  function ValueAt(ps: seq<Point>, t: int): real
    requires t in Seconds(ps)
  {
    if ps[0].second == t then ps[0].value else ValueAt(ps[1..], t)
  }

  /**
   * TimeSeries.addOrUpdate: replaces the value at second sec if there is a point there,
   * otherwise inserts a point at its place in the order.
   */
  function AddOrUpdate(ps: seq<Point>, sec: int, v: real): (qs: seq<Point>)
    requires Ascending(ps)
    ensures Ascending(qs)
    ensures Seconds(qs) == Seconds(ps) + {sec}
    ensures |qs| == if sec in Seconds(ps) then |ps| else |ps| + 1
    ensures ValueAt(qs, sec) == v
    ensures forall t :: t in Seconds(ps) && t != sec ==> ValueAt(qs, t) == ValueAt(ps, t)
  {
    if ps == [] then [Point(sec, v)]
    else
      AscendingTail(ps);
      if ps[0].second == sec then
        ConsPoint(Point(sec, v), ps[1..]);
        AscendingCons(Point(sec, v), ps[1..]);
        [Point(sec, v)] + ps[1..]
      else if sec < ps[0].second then
        ConsPoint(Point(sec, v), ps);
        AscendingCons(Point(sec, v), ps);
        [Point(sec, v)] + ps
      else
        var rest := AddOrUpdate(ps[1..], sec, v);
        ConsPoint(ps[0], rest);
        ConsPoint(ps[0], ps[1..]);
        AscendingCons(ps[0], rest);
        assert ps == [ps[0]] + ps[1..];
        [ps[0]] + rest
  }

  /** The seconds in which sensor s has readings. */
  function Buckets(rs: seq<Reading>, s: string): set<int>
  {
    if rs == [] then {}
    else
      var r := rs[|rs| - 1];
      Buckets(rs[..|rs| - 1], s) + (if r.sensor == s then {SecondOf(r.timestamp)} else {})
  }

  /** The value of the last reading, in input order, of sensor s within second t. */
  function LatestValue(rs: seq<Reading>, s: string, t: int): real
    requires t in Buckets(rs, s)
  {
    var r := rs[|rs| - 1];
    if r.sensor == s && SecondOf(r.timestamp) == t then r.value
    else LatestValue(rs[..|rs| - 1], s, t)
  }

  /** The series of sensor s after the readings have been added in order. */
  function Series(rs: seq<Reading>, s: string): (ps: seq<Point>)
    ensures Ascending(ps)
    ensures Seconds(ps) == Buckets(rs, s)
    ensures forall t :: t in Buckets(rs, s) ==> ValueAt(ps, t) == LatestValue(rs, s, t)
  {
    if rs == [] then []
    else
      var r := rs[|rs| - 1];
      var ps := Series(rs[..|rs| - 1], s);
      if r.sensor == s then AddOrUpdate(ps, SecondOf(r.timestamp), r.value) else ps
  }

  /** The map the line chart's loop leaves behind. */
  function SeriesMap(rs: seq<Reading>): map<string, seq<Point>>
  {
    map s | s in Sensors(rs) :: Series(rs, s)
  }

  /** The putIfAbsent / addOrUpdate loop of createLineChart. */
  method LineChartSeries(data: seq<Reading>) returns (seriesMap: map<string, seq<Point>>)
    ensures seriesMap == SeriesMap(data)
    ensures seriesMap.Keys == Sensors(data)
    ensures forall s :: s in seriesMap ==> Ascending(seriesMap[s]) && Seconds(seriesMap[s]) == Buckets(data, s)
    ensures forall s, t :: s in seriesMap && t in Buckets(data, s) ==> ValueAt(seriesMap[s], t) == LatestValue(data, s, t)
  {
    seriesMap := map[];
    for i := 0 to |data|
      invariant seriesMap == SeriesMap(data[..i])
    {
      var sd := data[i];
      if sd.sensor !in seriesMap {
        seriesMap := seriesMap[sd.sensor := []];
      }
      seriesMap := seriesMap[sd.sensor := AddOrUpdate(seriesMap[sd.sensor], SecondOf(sd.timestamp), sd.value)];
      assert data[..i + 1] == data[..i] + [sd];
      SeriesMapSnoc(data[..i], sd);
    }
    assert data[..|data|] == data;
  }

  // ----- Lemmas -------------------------------------------------------------------

  /** The tail of an ascending series is ascending and lies after its first point. */
  lemma AscendingTail(ps: seq<Point>)
    requires Ascending(ps) && ps != []
    ensures Ascending(ps[1..])
    ensures forall t :: t in Seconds(ps[1..]) ==> ps[0].second < t
  {
    forall t | t in Seconds(ps[1..]) ensures ps[0].second < t {
      SecondsIndex(ps[1..], t);
      var j :| 0 <= j < |ps[1..]| && ps[1..][j].second == t;
      assert ps[j + 1] == ps[1..][j];
    }
  }

  /** A second has a point exactly when some point of the series carries it. */
  lemma {:induction false} SecondsIndex(ps: seq<Point>, t: int)
    ensures t in Seconds(ps) <==> exists i :: 0 <= i < |ps| && ps[i].second == t
  {
    if ps != [] {
      SecondsIndex(ps[1..], t);
      if t in Seconds(ps[1..]) {
        var i :| 0 <= i < |ps[1..]| && ps[1..][i].second == t;
        assert ps[i + 1].second == t;
      }
      if exists i :: 0 <= i < |ps| && ps[i].second == t {
        var i :| 0 <= i < |ps| && ps[i].second == t;
        if i > 0 {
          assert ps[1..][i - 1].second == t;
        }
      }
    }
  }

  /** A point put in front of a series: its seconds and its values. */
  lemma ConsPoint(p: Point, ps: seq<Point>)
    ensures Seconds([p] + ps) == {p.second} + Seconds(ps)
    ensures forall t :: t in Seconds([p] + ps) ==>
              ValueAt([p] + ps, t) == if p.second == t then p.value else ValueAt(ps, t)
  {
    assert ([p] + ps)[0] == p && ([p] + ps)[1..] == ps;
  }

  /** A point before every second of an ascending series keeps it ascending. */
  lemma AscendingCons(p: Point, ps: seq<Point>)
    requires Ascending(ps)
    requires forall t :: t in Seconds(ps) ==> p.second < t
    ensures Ascending([p] + ps)
  {
    var qs := [p] + ps;
    forall i, j | 0 <= i < j < |qs| ensures qs[i].second < qs[j].second {
      assert qs[j] == ps[j - 1];
      SecondsIndex(ps, ps[j - 1].second);
      if i > 0 {
        assert qs[i] == ps[i - 1];
      }
    }
  }

  /** An ascending series has one point per second. */
  lemma {:induction false} OnePointPerSecond(ps: seq<Point>)
    requires Ascending(ps)
    ensures |Seconds(ps)| == |ps|
  {
    if ps != [] {
      AscendingTail(ps);
      OnePointPerSecond(ps[1..]);
    }
  }

  /** A second has a bucket exactly when some reading of the sensor falls in it. */
  lemma {:induction false} BucketsMembership(rs: seq<Reading>, s: string, t: int)
    ensures t in Buckets(rs, s) <==> exists i :: 0 <= i < |rs| && rs[i].sensor == s && SecondOf(rs[i].timestamp) == t
  {
    if rs != [] {
      var init := rs[..|rs| - 1];
      BucketsMembership(init, s, t);
      assert forall i :: 0 <= i < |init| ==> init[i] == rs[i];
      if t in Buckets(init, s) {
        var i :| 0 <= i < |init| && init[i].sensor == s && SecondOf(init[i].timestamp) == t;
        assert rs[i].sensor == s && SecondOf(rs[i].timestamp) == t;
      }
    }
  }

  /**
   * The point a sensor has at second t carries the value of a reading of that sensor in
   * second t, and no later reading of the sensor falls in that second.
   */
  lemma {:induction false} LatestValueIsLast(rs: seq<Reading>, s: string, t: int)
    requires t in Buckets(rs, s)
    ensures exists i :: 0 <= i < |rs| && rs[i].sensor == s && SecondOf(rs[i].timestamp) == t
                        && rs[i].value == LatestValue(rs, s, t)
                        && forall j :: i < j < |rs| ==> !(rs[j].sensor == s && SecondOf(rs[j].timestamp) == t)
  {
    var init := rs[..|rs| - 1];
    var r := rs[|rs| - 1];
    if r.sensor == s && SecondOf(r.timestamp) == t {
      assert rs[|rs| - 1] == r;
    } else {
      LatestValueIsLast(init, s, t);
      var i :| 0 <= i < |init| && init[i].sensor == s && SecondOf(init[i].timestamp) == t
               && init[i].value == LatestValue(init, s, t)
               && forall j :: i < j < |init| ==> !(init[j].sensor == s && SecondOf(init[j].timestamp) == t);
      assert rs[i] == init[i];
      assert forall j :: i < j < |init| ==> rs[j] == init[j];
    }
  }

  /** Every series of the line chart has one point per second in which the sensor has readings. */
  lemma SeriesSize(rs: seq<Reading>, s: string)
    ensures |Series(rs, s)| == |Buckets(rs, s)|
  {
    OnePointPerSecond(Series(rs, s));
  }

  /** A sensor without readings has an empty series. */
  lemma {:induction false} SeriesOfAbsent(rs: seq<Reading>, s: string)
    requires s !in Sensors(rs)
    ensures Series(rs, s) == []
  {
    if rs != [] {
      SeriesOfAbsent(rs[..|rs| - 1], s);
    }
  }

  /** One more reading: its sensor's series, created empty if absent, gets addOrUpdate. */
  lemma SeriesMapSnoc(rs: seq<Reading>, r: Reading)
    ensures r.sensor in SeriesMap(rs) ==>
      SeriesMap(rs + [r]) == SeriesMap(rs)[r.sensor := AddOrUpdate(SeriesMap(rs)[r.sensor], SecondOf(r.timestamp), r.value)]
    ensures r.sensor !in SeriesMap(rs) ==>
      SeriesMap(rs + [r]) == SeriesMap(rs)[r.sensor := AddOrUpdate([], SecondOf(r.timestamp), r.value)]
  {
    var rs' := rs + [r];
    assert rs'[..|rs'| - 1] == rs;
    assert rs'[|rs'| - 1] == r;
    if r.sensor !in Sensors(rs) {
      SeriesOfAbsent(rs, r.sensor);
    }
    var old' := if r.sensor in SeriesMap(rs) then SeriesMap(rs)[r.sensor] else [];
    var g := SeriesMap(rs)[r.sensor := AddOrUpdate(old', SecondOf(r.timestamp), r.value)];
    assert SeriesMap(rs').Keys == g.Keys;
    forall s | s in g ensures SeriesMap(rs')[s] == g[s] {
    }
  }
}
