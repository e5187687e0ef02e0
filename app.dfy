/**
 * The application state (src/app.rs): the latest session, the stored
 * sessions and the session picked for display, and the chart builder that
 * fills three fixed 999-slot series from the picked session's records.
 */
module Application {
  import opened Wrappers
  import opened Parser
  import opened ChartSeries

  /** The number of slots in each series of this chart. */
  const Slots: int := 999

  /**
   * A 999-slot chart: power, heart-rate and threshold-power series (the
   * contents of the three fixed arrays), the vertical range and the
   * horizontal extent. The datatype's constructor is `ChartDataset::new`.
   */
  datatype ChartDataset = ChartDataset(
    power: seq<Point>,
    heartRate: seq<Point>,
    minY: int,
    maxY: int,
    maxX: int,
    thresholdPower: seq<Point>)

  class App {
    var latestSession: Option<Session>
    var sessions: seq<Session>
    var selectedSession: Option<Session>

    /** `App::new`, which is `App::default`: nothing loaded, nothing picked. */
    constructor ()
      ensures latestSession == None && sessions == [] && selectedSession == None
    {
      latestSession := None;
      sessions := [];
      selectedSession := None;
    }

    /** `select_session`: picks the given session (or none) and changes nothing else. */
    method SelectSession(session: Option<Session>)
      modifies this
      ensures selectedSession == session
      ensures latestSession == old(latestSession) && sessions == old(sessions)
    {
      selectedSession := session;
    }

    /**
     * `build_session_dataset`: point i of each series sits at x = 60·i, with
     * the record's power, its heart rate and the session's threshold power;
     * slots past the records stay at the origin. The range runs from the
     * smallest heart rate to the largest power, and the extent is the time
     * between the first and the last record.
     *
     * The source panics when no session is picked, when the records do not
     * fit the 999 slots and when there are no records to take a minimum of.
     */
    method BuildSessionDataset() returns (d: ChartDataset)
      requires selectedSession.Some?
      requires 1 <= |selectedSession.value.records| <= Slots
      ensures |d.power| == Slots && |d.heartRate| == Slots && |d.thresholdPower| == Slots
      ensures forall i :: 0 <= i < |selectedSession.value.records| ==>
                && d.power[i] == Point(60 * i, selectedSession.value.records[i].power)
                && d.heartRate[i] == Point(60 * i, selectedSession.value.records[i].heartRate)
                && d.thresholdPower[i] == Point(60 * i, selectedSession.value.thresholdPower)
      ensures forall i :: |selectedSession.value.records| <= i < Slots ==>
                d.power[i] == Origin && d.heartRate[i] == Origin && d.thresholdPower[i] == Origin
      ensures d.minY == MinHeartRate(selectedSession.value.records)
      ensures d.maxY == MaxPower(selectedSession.value.records)
      ensures d.maxX == selectedSession.value.records[|selectedSession.value.records| - 1].timestamp
                        - selectedSession.value.records[0].timestamp
    {
      var session := selectedSession.value;
      var records := session.records;
      var power, heart, threshold := FillSeries(records, session.thresholdPower);
      var minY := MinHeartRate(records);
      var maxY := MaxPower(records);
      var maxX := records[|records| - 1].timestamp - records[0].timestamp;
      d := ChartDataset(power, heart, minY, maxY, maxX, threshold);
    }
  }

  /**
   * The loop of `build_session_dataset` over three 999-slot arrays that
   * start at the origin: slot i gets x = 60·i and the record's power, its
   * heart rate and the threshold power; the contents are returned.
   */
  method FillSeries(records: seq<Record>, thresholdPower: int)
    returns (power: seq<Point>, heart: seq<Point>, threshold: seq<Point>)
    requires |records| <= Slots
    ensures |power| == Slots && |heart| == Slots && |threshold| == Slots
    ensures forall i :: 0 <= i < |records| ==>
              && power[i] == Point(60 * i, records[i].power)
              && heart[i] == Point(60 * i, records[i].heartRate)
              && threshold[i] == Point(60 * i, thresholdPower)
    ensures forall i :: |records| <= i < Slots ==>
              power[i] == Origin && heart[i] == Origin && threshold[i] == Origin
  {
    var powerSlots := new Point[Slots](_ => Origin);
    var heartSlots := new Point[Slots](_ => Origin);
    var thresholdSlots := new Point[Slots](_ => Origin);

    var idx := 0;
    while idx < |records|
      invariant 0 <= idx <= |records|
      invariant forall i :: 0 <= i < idx ==> powerSlots[i] == Point(60 * i, records[i].power)
      invariant forall i :: 0 <= i < idx ==> heartSlots[i] == Point(60 * i, records[i].heartRate)
      invariant forall i :: 0 <= i < idx ==> thresholdSlots[i] == Point(60 * i, thresholdPower)
      invariant forall i :: idx <= i < Slots ==> powerSlots[i] == Origin
      invariant forall i :: idx <= i < Slots ==> heartSlots[i] == Origin
      invariant forall i :: idx <= i < Slots ==> thresholdSlots[i] == Origin
    {
      powerSlots[idx] := Point(60 * idx, records[idx].power);
      heartSlots[idx] := Point(60 * idx, records[idx].heartRate);
      thresholdSlots[idx] := Point(60 * idx, thresholdPower);
      idx := idx + 1;
    }
    power, heart, threshold := powerSlots[..], heartSlots[..], thresholdSlots[..];
  }
}
