/**
 * The growable-vector chart builder (src/ui/util.rs): one point per record
 * at x = i, pushed onto three vectors, with the vertical range from the
 * records and the horizontal extent equal to the number of points.
 */
module SessionChart {
  import opened Wrappers
  import opened Parser
  import opened ChartSeries

  /**
   * A chart of growable series. The datatype's constructor is
   * `ChartDataset::new`, which only moves its arguments into the fields.
   */
  datatype ChartDataset = ChartDataset(
    power: seq<Point>,
    heartRate: seq<Point>,
    minY: int,
    maxY: int,
    maxX: int,
    thresholdPower: seq<Point>)

  /** Why no chart is built: the session has no records to take a minimum of. */
  datatype ChartError = NoRecords

  /**
   * `build_session_dataset`: exactly one point per record in each series,
   * point i at x = i with the record's power, its heart rate, and the
   * session's threshold power; the range runs from the smallest heart rate
   * to the largest power and the extent is the number of points. A session
   * without records fails (the source's `unwrap` of an empty minimum).
   */
  method BuildSessionDataset(session: Session) returns (r: Result<ChartDataset, ChartError>)
    ensures r.Failure? <==> session.records == []
    ensures r.Success? ==>
              && |r.value.power| == |session.records|
              && |r.value.heartRate| == |session.records|
              && |r.value.thresholdPower| == |session.records|
              && r.value.maxX == |session.records|
              && r.value.minY == MinHeartRate(session.records)
              && r.value.maxY == MaxPower(session.records)
    ensures r.Success? ==>
              forall i :: 0 <= i < |session.records| ==>
                && r.value.power[i] == Point(i, session.records[i].power)
                && r.value.heartRate[i] == Point(i, session.records[i].heartRate)
                && r.value.thresholdPower[i] == Point(i, session.thresholdPower)
  {
    var power: seq<Point> := [];
    var heart: seq<Point> := [];
    var threshold: seq<Point> := [];
    var records := session.records;

    for idx := 0 to |records|
      invariant |power| == idx && |heart| == idx && |threshold| == idx
      invariant forall i :: 0 <= i < idx ==>
                  && power[i] == Point(i, records[i].power)
                  && heart[i] == Point(i, records[i].heartRate)
                  && threshold[i] == Point(i, session.thresholdPower)
    {
      power := power + [Point(idx, records[idx].power)];
      heart := heart + [Point(idx, records[idx].heartRate)];
      threshold := threshold + [Point(idx, session.thresholdPower)];
    }

    if records == [] {
      return Failure(NoRecords);
    }
    var minY := MinHeartRate(records);
    var maxY := MaxPower(records);
    var maxX := |heart|;
    return Success(ChartDataset(power, heart, minY, maxY, maxX, threshold));
  }

  /**
   * In a chart built this way each series' x coordinates strictly
   * increase, every heart-rate point lies on or above the range's floor and
   * every power point on or below its ceiling.
   */
  lemma {:induction false} SeriesWithinRange(session: Session, d: ChartDataset)
    requires session.records != []
    requires |d.power| == |session.records| && |d.heartRate| == |session.records|
    requires |d.thresholdPower| == |session.records|
    requires d.minY == MinHeartRate(session.records) && d.maxY == MaxPower(session.records)
    requires forall i :: 0 <= i < |session.records| ==>
               && d.power[i] == Point(i, session.records[i].power)
               && d.heartRate[i] == Point(i, session.records[i].heartRate)
               && d.thresholdPower[i] == Point(i, session.thresholdPower)
    ensures IncreasingX(d.power, |d.power|) && IncreasingX(d.heartRate, |d.heartRate|)
    ensures IncreasingX(d.thresholdPower, |d.thresholdPower|)
    ensures forall i :: 0 <= i < |d.heartRate| ==> d.minY <= d.heartRate[i].y
    ensures forall i :: 0 <= i < |d.power| ==> d.power[i].y <= d.maxY
  {
  }
}
