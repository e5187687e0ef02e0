/**
 * What the three chart builders share: a plotted point and the two
 * reductions that set a chart's vertical range, the smallest heart rate
 * and the largest power over a session's records.
 *
 * Every y value the builders plot is an integer field cast to a float, so
 * points have integer coordinates here.
 */
module ChartSeries {
  import opened Parser

  /** One plotted point. */
  datatype Point = Point(x: int, y: int)

  /** The origin, the value every fixed-size series starts filled with. */
  const Origin: Point := Point(0, 0)

  /** The smallest heart rate over the records (`iter().min().unwrap()`). */
  function MinHeartRate(records: seq<Record>): (m: int)
    requires records != []
    ensures forall i :: 0 <= i < |records| ==> m <= records[i].heartRate
    ensures exists i :: 0 <= i < |records| && m == records[i].heartRate
  {
    if |records| == 1 then records[0].heartRate
    else
      var rest := MinHeartRate(records[1..]);
      assert forall i :: 1 <= i < |records| ==> records[i] == records[1..][i - 1];
      if records[0].heartRate <= rest then records[0].heartRate else rest
  }

  /** The largest power over the records (`iter().max().unwrap()`). */
  function MaxPower(records: seq<Record>): (m: int)
    requires records != []
    ensures forall i :: 0 <= i < |records| ==> records[i].power <= m
    ensures exists i :: 0 <= i < |records| && m == records[i].power
  {
    if |records| == 1 then records[0].power
    else
      var rest := MaxPower(records[1..]);
      assert forall i :: 1 <= i < |records| ==> records[i] == records[1..][i - 1];
      if records[0].power >= rest then records[0].power else rest
  }

  /** Along the series' first `n` points the x coordinate strictly increases. */
  ghost predicate IncreasingX(points: seq<Point>, n: int)
    requires 0 <= n <= |points|
  {
    forall i, j :: 0 <= i < j < n ==> points[i].x < points[j].x
  }
}
