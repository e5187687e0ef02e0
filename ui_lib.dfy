/**
 * The 200-slot chart builder (src/ui/lib.rs): the latest session's records
 * plotted one per minute into two fixed series, with the vertical range
 * from the records.
 */
module RecordsChart {
  import opened Parser
  import opened ChartSeries
  import Application

  /** The number of slots in each series of this chart. */
  const Slots: int := 200

  /** A 200-slot chart; the datatype's constructor is `ChartDataset::new`. */
  datatype ChartDataset = ChartDataset(
    power: seq<Point>,
    heartRate: seq<Point>,
    minY: int,
    maxY: int)

  /**
   * `build_session_records_dataset`: point i of each series sits at
   * x = 60·i with the latest session's record i's power or heart rate;
   * slots past the records stay at the origin. The range runs from the
   * smallest heart rate to the largest power.
   *
   * The source panics when there is no latest session, when its records do
   * not fit the 200 slots and when there are none to take a minimum of.
   */
  method BuildSessionRecordsDataset(app: Application.App) returns (d: ChartDataset)
    requires app.latestSession.Some?
    requires 1 <= |app.latestSession.value.records| <= Slots
    ensures |d.power| == Slots && |d.heartRate| == Slots
    ensures forall i :: 0 <= i < |app.latestSession.value.records| ==>
              && d.power[i] == Point(60 * i, app.latestSession.value.records[i].power)
              && d.heartRate[i] == Point(60 * i, app.latestSession.value.records[i].heartRate)
    ensures forall i :: |app.latestSession.value.records| <= i < Slots ==>
              d.power[i] == Origin && d.heartRate[i] == Origin
    ensures d.minY == MinHeartRate(app.latestSession.value.records)
    ensures d.maxY == MaxPower(app.latestSession.value.records)
  {
    var records := app.latestSession.value.records;
    var power := new Point[Slots](_ => Origin);
    var heart := new Point[Slots](_ => Origin);

    var idx := 0;
    while idx < |records|
      invariant 0 <= idx <= |records|
      invariant forall i :: 0 <= i < idx ==>
                  power[i] == Point(60 * i, records[i].power) && heart[i] == Point(60 * i, records[i].heartRate)
      invariant forall i :: idx <= i < Slots ==> power[i] == Origin && heart[i] == Origin
    {
      power[idx] := Point(60 * idx, records[idx].power);
      heart[idx] := Point(60 * idx, records[idx].heartRate);
      idx := idx + 1;
    }

    d := ChartDataset(power[..], heart[..], MinHeartRate(records), MaxPower(records));
  }

  /**
   * Over the filled prefix of such a series the x coordinates climb in
   * steps of 60, so they strictly increase.
   */
  lemma {:induction false} MinuteStepsIncrease(points: seq<Point>, records: seq<Record>)
    requires |records| <= |points|
    requires forall i :: 0 <= i < |records| ==> points[i].x == 60 * i
    ensures IncreasingX(points, |records|)
    ensures forall i :: 0 <= i < |records| - 1 ==> points[i + 1].x - points[i].x == 60
  {
  }
}
