/**
 * Field extraction and activity assembly (src/parser.rs).
 *
 * A decoded FIT file is a sequence of data messages, each tagged with its
 * message kind and carrying a bag of (name, value) fields. The extractor
 * keeps the fields whose name belongs to a closed enumeration, looks each
 * wanted name up by first match and converts the value to the target width.
 * Every `unwrap`/`expect` of the source is a panic; here it is a `Failure`.
 */
module Parser {
  import opened Wrappers

  /** The recognised field names (`TotalDistance` is spelled `TotalDistace` in the source). */
  datatype FieldName =
    | StartTime | AvgPower | TotalMovingTime | TotalElapsedTime | AvgCadence
    | TotalDistance | Sport | SubSport | ThresholdPower | AvgHeartRate
    | SerialNumber | Power | Timestamp | Distance | HeartRate

  /** The `Display` text of a field name: the FIT profile's field name. */
  function Name(f: FieldName): string {
    match f
    case AvgPower => "avg_power"
    case TotalMovingTime => "total_moving_time"
    case TotalElapsedTime => "total_elapsed_time"
    case AvgCadence => "avg_cadence"
    case TotalDistance => "total_distance"
    case Sport => "sport"
    case SubSport => "sub_sport"
    case AvgHeartRate => "avg_heart_rate"
    case ThresholdPower => "threshold_power"
    case StartTime => "start_time"
    case SerialNumber => "serial_number"
    case Power => "power"
    case Timestamp => "timestamp"
    case Distance => "distance"
    case HeartRate => "heart_rate"
  }

  /** Reads a field name back from its text; the partner of `Name`. */
  function FieldNamed(s: string): (r: Option<FieldName>)
    ensures r.Some? ==> Name(r.value) == s
  {
    if s == "avg_power" then Some(AvgPower)
    else if s == "total_moving_time" then Some(TotalMovingTime)
    else if s == "total_elapsed_time" then Some(TotalElapsedTime)
    else if s == "avg_cadence" then Some(AvgCadence)
    else if s == "total_distance" then Some(TotalDistance)
    else if s == "sport" then Some(Sport)
    else if s == "sub_sport" then Some(SubSport)
    else if s == "avg_heart_rate" then Some(AvgHeartRate)
    else if s == "threshold_power" then Some(ThresholdPower)
    else if s == "start_time" then Some(StartTime)
    else if s == "serial_number" then Some(SerialNumber)
    else if s == "power" then Some(Power)
    else if s == "timestamp" then Some(Timestamp)
    else if s == "distance" then Some(Distance)
    else if s == "heart_rate" then Some(HeartRate)
    else None
  }

  lemma NameRoundTrip(f: FieldName)
    ensures FieldNamed(Name(f)) == Some(f)
  {
  }

  /** Distinct field names display as distinct texts. */
  lemma NameInjective(f: FieldName, g: FieldName)
    ensures Name(f) == Name(g) <==> f == g
  {
    NameRoundTrip(f);
    NameRoundTrip(g);
  }

  // ---------------------------------------------------------------------
  // Dynamically typed values and their conversions

  const I64Min: int := -0x8000_0000_0000_0000
  const I64Max: int := 0x7FFF_FFFF_FFFF_FFFF

  /** A decoded field value: a timestamp (epoch seconds), an integer, a float or a text. */
  datatype Value = Time(seconds: int) | Integer(i: int) | Float(f: real) | Text(s: string)

  /** `Value::try_into::<i64>`: integers and timestamps in range convert, nothing is truncated. */
  function AsI64(v: Value): (r: Option<int>)
    ensures r.Some? ==> I64Min <= r.value <= I64Max
    ensures r.Some? ==> v.Time? || v.Integer?
  {
    match v
    case Time(t) => if I64Min <= t <= I64Max then Some(t) else None
    case Integer(i) => if I64Min <= i <= I64Max then Some(i) else None
    case Float(_) => None
    case Text(_) => None
  }

  /** `Value::try_into::<f64>`: every numeric value converts, texts do not. */
  function AsF64(v: Value): (r: Option<real>)
    ensures r.None? <==> v.Text?
  {
    match v
    case Time(t) => Some(t as real)
    case Integer(i) => Some(i as real)
    case Float(f) => Some(f)
    case Text(_) => None
  }

  /** `Value`'s display text, as used for sport and sub-sport. */
  function Render(v: Value): string {
    if v.Text? then v.s else ""
  }

  datatype Field = Field(name: string, value: Value)

  /** The message kinds the assembler distinguishes. */
  datatype MesgNum = FileIdMesg | SessionMesg | LapMesg | RecordMesg | OtherMesg

  /** One decoded data message (a `FitDataRecord`). */
  datatype DataRecord = DataRecord(kind: MesgNum, fields: seq<Field>)

  datatype ParseError =
    | MissingField(name: FieldName)
    | ConversionFailed(name: FieldName)
    | NoSessionMessage
    | NoFileIdMessage

  // ---------------------------------------------------------------------
  // Domain entities

  datatype Lap = Lap(
    id: Option<int>,
    startTime: int,
    avgPower: int,
    avgHeartRate: int,
    totalMovingTime: real,
    totalDistance: real)

  datatype Record = Record(
    id: Option<int>,
    timestamp: int,
    heartRate: int,
    power: int,
    distance: real)

  datatype Session = Session(
    id: Option<int>,
    startTime: int,
    totalElapsedTime: real,
    totalDistance: real,
    avgPower: int,
    totalMovingTime: real,
    avgHeartRate: int,
    thresholdPower: int,
    sport: string,
    subSport: string,
    avgCadence: int,
    laps: seq<Lap>,
    records: seq<Record>,
    serialNum: int)

  // ---------------------------------------------------------------------
  // Lookup

  /** True when `name` is the display text of one of `names`. */
  predicate IsNamed(name: string, names: set<FieldName>) {
    exists n :: n in names && Name(n) == name
  }

  /** The `filter` step: the fields whose name is one of `names`, in their order. */
  function Keep(fields: seq<Field>, names: set<FieldName>): (kept: seq<Field>)
    ensures |kept| <= |fields|
    ensures forall f :: f in kept ==> f in fields && IsNamed(f.name, names)
  {
    if fields == [] then []
    else if IsNamed(fields[0].name, names) then [fields[0]] + Keep(fields[1..], names)
    else Keep(fields[1..], names)
  }

  /** The `find` step: the value of the first field called `n`. */
  function Find(fields: seq<Field>, n: FieldName): (r: Option<Value>)
    ensures r.Some? ==> Field(Name(n), r.value) in fields
  {
    if fields == [] then None
    else if fields[0].name == Name(n) then Some(fields[0].value)
    else Find(fields[1..], n)
  }

  /** `Find` answers with the first field of that name, and with None only when there is none. */
  lemma {:induction false} FindFirstMatch(fields: seq<Field>, n: FieldName)
    ensures Find(fields, n).None? <==> forall i :: 0 <= i < |fields| ==> fields[i].name != Name(n)
    ensures Find(fields, n).Some? ==>
              exists i :: 0 <= i < |fields| && fields[i] == Field(Name(n), Find(fields, n).value) &&
                          forall j :: 0 <= j < i ==> fields[j].name != Name(n)
  {
    if fields != [] && fields[0].name != Name(n) {
      FindFirstMatch(fields[1..], n);
      assert forall j :: 1 <= j < |fields| ==> fields[j] == fields[1..][j - 1];
      if Find(fields, n).Some? {
        var i :| 0 <= i < |fields[1..]| && fields[1..][i] == Field(Name(n), Find(fields, n).value) &&
                 forall j :: 0 <= j < i ==> fields[1..][j].name != Name(n);
        assert fields[i + 1] == Field(Name(n), Find(fields, n).value);
      }
    } else if fields != [] {
      assert fields[0] == Field(Name(n), Find(fields, n).value);
    }
  }

  /**
   * Filtering against a set of recognised names does not change what a
   * lookup of a recognised name finds, and hides every other name.
   */
  lemma {:induction false} FindAfterKeep(fields: seq<Field>, names: set<FieldName>, n: FieldName)
    ensures Find(Keep(fields, names), n) == if n in names then Find(fields, n) else None
  {
    if fields != [] {
      FindAfterKeep(fields[1..], names, n);
      if IsNamed(fields[0].name, names) {
        var m :| m in names && Name(m) == fields[0].name;
        NameInjective(m, n);
      }
    }
  }

  function Require(fields: seq<Field>, n: FieldName): (r: Result<Value, ParseError>)
    ensures r.Success? <==> Find(fields, n).Some?
    ensures r.Success? ==> r.value == Find(fields, n).value
    ensures r.Failure? ==> r.error == MissingField(n)
  {
    match Find(fields, n)
    case Some(v) => Success(v)
    case None => Failure(MissingField(n))
  }

  function ToI64(v: Value, n: FieldName): (r: Result<int, ParseError>)
    ensures r.Success? <==> AsI64(v).Some?
    ensures r.Success? ==> r.value == AsI64(v).value
    ensures r.Failure? ==> r.error == ConversionFailed(n)
  {
    match AsI64(v)
    case Some(i) => Success(i)
    case None => Failure(ConversionFailed(n))
  }

  function ToF64(v: Value, n: FieldName): (r: Result<real, ParseError>)
    ensures r.Success? <==> AsF64(v).Some?
    ensures r.Success? ==> r.value == AsF64(v).value
    ensures r.Failure? ==> r.error == ConversionFailed(n)
  {
    match AsF64(v)
    case Some(x) => Success(x)
    case None => Failure(ConversionFailed(n))
  }

  /** An optional integer field: converted when present, 0 when absent. */
  function I64OrZero(found: Option<Value>, n: FieldName): (r: Result<int, ParseError>)
    ensures found.None? ==> r == Success(0)
    ensures found.Some? ==> r == ToI64(found.value, n)
  {
    match found
    case Some(v) => ToI64(v, n)
    case None => Success(0)
  }

  /** An optional float field: converted when present, 0 when absent. */
  function F64OrZero(found: Option<Value>, n: FieldName): (r: Result<real, ParseError>)
    ensures found.None? ==> r == Success(0.0)
    ensures found.Some? ==> r == ToF64(found.value, n)
  {
    match found
    case Some(v) => ToF64(v, n)
    case None => Success(0.0)
  }

  /** The first field called `n` exists and converts to the integer `x`. */
  ghost predicate HasI64(fields: seq<Field>, n: FieldName, x: int) {
    Find(fields, n).Some? && AsI64(Find(fields, n).value) == Some(x)
  }

  /** The first field called `n` exists and converts to the float `x`. */
  ghost predicate HasF64(fields: seq<Field>, n: FieldName, x: real) {
    Find(fields, n).Some? && AsF64(Find(fields, n).value) == Some(x)
  }

  ghost predicate ConvertsI64(fields: seq<Field>, n: FieldName) {
    Find(fields, n).Some? && AsI64(Find(fields, n).value).Some?
  }

  ghost predicate ConvertsF64(fields: seq<Field>, n: FieldName) {
    Find(fields, n).Some? && AsF64(Find(fields, n).value).Some?
  }

  // ---------------------------------------------------------------------
  // Session, Lap and Record from a field bag

  const SessionFields: set<FieldName> :=
    {AvgPower, TotalDistance, TotalElapsedTime, TotalMovingTime, AvgCadence,
     Sport, SubSport, AvgHeartRate, StartTime, ThresholdPower}

  const LapFields: set<FieldName> :=
    {AvgPower, TotalDistance, TotalMovingTime, AvgHeartRate, StartTime}

  const RecordFields: set<FieldName> := {Power, Distance, Timestamp, HeartRate}

  /** Every field a session needs is present and its numeric ones convert. */
  ghost predicate SessionFieldsComplete(fields: seq<Field>) {
    && ConvertsI64(fields, StartTime) && ConvertsF64(fields, TotalElapsedTime)
    && ConvertsF64(fields, TotalDistance) && ConvertsI64(fields, AvgPower)
    && ConvertsF64(fields, TotalMovingTime) && ConvertsI64(fields, AvgHeartRate)
    && ConvertsI64(fields, ThresholdPower) && ConvertsI64(fields, AvgCadence)
    && Find(fields, Sport).Some? && Find(fields, SubSport).Some?
  }

  /** The raw values of the ten fields a session is built from. */
  datatype SessionValues = SessionValues(
    power: Value, distance: Value, time: Value, moving: Value, cadence: Value,
    sport: Value, subSport: Value, threshold: Value, heartRate: Value, start: Value)

  /** The `find` calls of `Session::from_iter`, in their order; each one is required. */
  function FindSessionValues(kept: seq<Field>): (r: Result<SessionValues, ParseError>)
    ensures r.Success? <==>
              && Find(kept, AvgPower).Some? && Find(kept, TotalDistance).Some?
              && Find(kept, TotalElapsedTime).Some? && Find(kept, TotalMovingTime).Some?
              && Find(kept, AvgCadence).Some? && Find(kept, Sport).Some?
              && Find(kept, SubSport).Some? && Find(kept, ThresholdPower).Some?
              && Find(kept, AvgHeartRate).Some? && Find(kept, StartTime).Some?
    ensures r.Failure? ==>
              r.error.MissingField? && r.error.name in SessionFields && Find(kept, r.error.name).None?
    ensures r.Success? ==>
              && Some(r.value.power) == Find(kept, AvgPower)
              && Some(r.value.distance) == Find(kept, TotalDistance)
              && Some(r.value.time) == Find(kept, TotalElapsedTime)
              && Some(r.value.moving) == Find(kept, TotalMovingTime)
              && Some(r.value.cadence) == Find(kept, AvgCadence)
              && Some(r.value.sport) == Find(kept, Sport)
              && Some(r.value.subSport) == Find(kept, SubSport)
              && Some(r.value.threshold) == Find(kept, ThresholdPower)
              && Some(r.value.heartRate) == Find(kept, AvgHeartRate)
              && Some(r.value.start) == Find(kept, StartTime)
  {
    var power :- Require(kept, AvgPower);
    var distance :- Require(kept, TotalDistance);
    var time :- Require(kept, TotalElapsedTime);
    var moving :- Require(kept, TotalMovingTime);
    var cadence :- Require(kept, AvgCadence);
    var sport :- Require(kept, Sport);
    var subSport :- Require(kept, SubSport);
    var threshold :- Require(kept, ThresholdPower);
    var heartRate :- Require(kept, AvgHeartRate);
    var start :- Require(kept, StartTime);
    Success(SessionValues(power, distance, time, moving, cadence, sport, subSport,
                          threshold, heartRate, start))
  }

  /** The struct literal of `Session::from_iter`: conversions in field order, no laps or records yet. */
  function ConvertSession(v: SessionValues): (r: Result<Session, ParseError>)
    ensures r.Success? <==>
              && AsI64(v.start).Some? && AsF64(v.time).Some? && AsF64(v.distance).Some?
              && AsI64(v.power).Some? && AsF64(v.moving).Some? && AsI64(v.heartRate).Some?
              && AsI64(v.threshold).Some? && AsI64(v.cadence).Some?
    ensures r.Failure? ==> r.error.ConversionFailed?
    ensures r.Success? ==>
              && r.value.id.None? && r.value.serialNum == 0
              && r.value.laps == [] && r.value.records == []
              && Some(r.value.startTime) == AsI64(v.start)
              && Some(r.value.totalElapsedTime) == AsF64(v.time)
              && Some(r.value.totalDistance) == AsF64(v.distance)
              && Some(r.value.avgPower) == AsI64(v.power)
              && Some(r.value.totalMovingTime) == AsF64(v.moving)
              && Some(r.value.avgHeartRate) == AsI64(v.heartRate)
              && Some(r.value.thresholdPower) == AsI64(v.threshold)
              && Some(r.value.avgCadence) == AsI64(v.cadence)
              && r.value.sport == Render(v.sport) && r.value.subSport == Render(v.subSport)
  {
    var startTime :- ToI64(v.start, StartTime);
    var elapsed :- ToF64(v.time, TotalElapsedTime);
    var totalDistance :- ToF64(v.distance, TotalDistance);
    var avgPower :- ToI64(v.power, AvgPower);
    var movingTime :- ToF64(v.moving, TotalMovingTime);
    var avgHeartRate :- ToI64(v.heartRate, AvgHeartRate);
    var thresholdPower :- ToI64(v.threshold, ThresholdPower);
    var avgCadence :- ToI64(v.cadence, AvgCadence);
    Success(Session(None, startTime, elapsed, totalDistance, avgPower, movingTime,
                    avgHeartRate, thresholdPower, Render(v.sport), Render(v.subSport),
                    avgCadence, [], [], 0))
  }

  /**
   * `Session::from_iter`: keep the ten recognised fields, find each one
   * (all are required), then convert them in the struct's field order.
   */
  function SessionFromFields(fields: seq<Field>): (r: Result<Session, ParseError>)
    ensures r.Success? <==> SessionFieldsComplete(fields)
    ensures r.Success? ==>
              && r.value.id.None? && r.value.serialNum == 0
              && r.value.laps == [] && r.value.records == []
              && HasI64(fields, StartTime, r.value.startTime)
              && HasF64(fields, TotalElapsedTime, r.value.totalElapsedTime)
              && HasF64(fields, TotalDistance, r.value.totalDistance)
              && HasI64(fields, AvgPower, r.value.avgPower)
              && HasF64(fields, TotalMovingTime, r.value.totalMovingTime)
              && HasI64(fields, AvgHeartRate, r.value.avgHeartRate)
              && HasI64(fields, ThresholdPower, r.value.thresholdPower)
              && HasI64(fields, AvgCadence, r.value.avgCadence)
              && r.value.sport == Render(Find(fields, Sport).value)
              && r.value.subSport == Render(Find(fields, SubSport).value)
  {
    FindAfterKeep(fields, SessionFields, AvgPower);
    FindAfterKeep(fields, SessionFields, TotalDistance);
    FindAfterKeep(fields, SessionFields, TotalElapsedTime);
    FindAfterKeep(fields, SessionFields, TotalMovingTime);
    FindAfterKeep(fields, SessionFields, AvgCadence);
    FindAfterKeep(fields, SessionFields, Sport);
    FindAfterKeep(fields, SessionFields, SubSport);
    FindAfterKeep(fields, SessionFields, ThresholdPower);
    FindAfterKeep(fields, SessionFields, AvgHeartRate);
    FindAfterKeep(fields, SessionFields, StartTime);
    var values :- FindSessionValues(Keep(fields, SessionFields));
    ConvertSession(values)
  }

  /** The `find` calls fail as soon as one recognised field is absent. */
  lemma FindSessionValuesMissing(kept: seq<Field>, n: FieldName)
    requires n in SessionFields && Find(kept, n).None?
    ensures FindSessionValues(kept).Failure?
  {
    match n
    case AvgPower =>
    case TotalDistance =>
    case TotalElapsedTime =>
    case TotalMovingTime =>
    case AvgCadence =>
    case Sport =>
    case SubSport =>
    case ThresholdPower =>
    case AvgHeartRate =>
    case StartTime =>
  }

  /**
   * A session message without one of the ten recognised fields fails with a
   * missing-field error that names an absent field, before any conversion.
   */
  lemma SessionMissingField(fields: seq<Field>, n: FieldName)
    requires n in SessionFields && Find(fields, n).None?
    ensures SessionFromFields(fields).Failure?
    ensures SessionFromFields(fields).error.MissingField?
    ensures SessionFromFields(fields).error.name in SessionFields
    ensures Find(fields, SessionFromFields(fields).error.name).None?
  {
    var kept := Keep(fields, SessionFields);
    FindAfterKeep(fields, SessionFields, n);
    FindSessionValuesMissing(kept, n);
    var r := FindSessionValues(kept);
    assert SessionFromFields(fields) == Failure(r.error);
    FindAfterKeep(fields, SessionFields, r.error.name);
  }

  /** Every field a lap needs is present and converts. */
  ghost predicate LapFieldsComplete(fields: seq<Field>) {
    && ConvertsI64(fields, StartTime) && ConvertsF64(fields, TotalDistance)
    && ConvertsI64(fields, AvgPower) && ConvertsF64(fields, TotalMovingTime)
    && ConvertsI64(fields, AvgHeartRate)
  }

  /** The raw values of the five fields a lap is built from. */
  datatype LapValues = LapValues(power: Value, distance: Value, moving: Value, heartRate: Value, start: Value)

  /** The `find` calls of `Lap::from_iter`, in their order; each one is required. */
  function FindLapValues(kept: seq<Field>): (r: Result<LapValues, ParseError>)
    ensures r.Success? <==>
              && Find(kept, AvgPower).Some? && Find(kept, TotalDistance).Some?
              && Find(kept, TotalMovingTime).Some? && Find(kept, AvgHeartRate).Some?
              && Find(kept, StartTime).Some?
    ensures r.Failure? ==>
              r.error.MissingField? && r.error.name in LapFields && Find(kept, r.error.name).None?
    ensures r.Success? ==>
              && Some(r.value.power) == Find(kept, AvgPower)
              && Some(r.value.distance) == Find(kept, TotalDistance)
              && Some(r.value.moving) == Find(kept, TotalMovingTime)
              && Some(r.value.heartRate) == Find(kept, AvgHeartRate)
              && Some(r.value.start) == Find(kept, StartTime)
  {
    var power :- Require(kept, AvgPower);
    var distance :- Require(kept, TotalDistance);
    var moving :- Require(kept, TotalMovingTime);
    var heartRate :- Require(kept, AvgHeartRate);
    var start :- Require(kept, StartTime);
    Success(LapValues(power, distance, moving, heartRate, start))
  }

  /** The struct literal of `Lap::from_iter`: conversions in field order. */
  function ConvertLap(v: LapValues): (r: Result<Lap, ParseError>)
    ensures r.Success? <==>
              && AsI64(v.start).Some? && AsF64(v.distance).Some? && AsI64(v.power).Some?
              && AsF64(v.moving).Some? && AsI64(v.heartRate).Some?
    ensures r.Failure? ==> r.error.ConversionFailed?
    ensures r.Success? ==>
              && r.value.id.None?
              && Some(r.value.startTime) == AsI64(v.start)
              && Some(r.value.totalDistance) == AsF64(v.distance)
              && Some(r.value.avgPower) == AsI64(v.power)
              && Some(r.value.totalMovingTime) == AsF64(v.moving)
              && Some(r.value.avgHeartRate) == AsI64(v.heartRate)
  {
    var startTime :- ToI64(v.start, StartTime);
    var totalDistance :- ToF64(v.distance, TotalDistance);
    var avgPower :- ToI64(v.power, AvgPower);
    var movingTime :- ToF64(v.moving, TotalMovingTime);
    var avgHeartRate :- ToI64(v.heartRate, AvgHeartRate);
    Success(Lap(None, startTime, avgPower, avgHeartRate, movingTime, totalDistance))
  }

  /** `Lap::from_iter`: all five recognised fields are required. */
  function LapFromFields(fields: seq<Field>): (r: Result<Lap, ParseError>)
    ensures r.Success? <==> LapFieldsComplete(fields)
    ensures r.Success? ==>
              && r.value.id.None?
              && HasI64(fields, StartTime, r.value.startTime)
              && HasF64(fields, TotalDistance, r.value.totalDistance)
              && HasI64(fields, AvgPower, r.value.avgPower)
              && HasF64(fields, TotalMovingTime, r.value.totalMovingTime)
              && HasI64(fields, AvgHeartRate, r.value.avgHeartRate)
  {
    FindAfterKeep(fields, LapFields, AvgPower);
    FindAfterKeep(fields, LapFields, TotalDistance);
    FindAfterKeep(fields, LapFields, TotalMovingTime);
    FindAfterKeep(fields, LapFields, AvgHeartRate);
    FindAfterKeep(fields, LapFields, StartTime);
    var values :- FindLapValues(Keep(fields, LapFields));
    ConvertLap(values)
  }

  /** The lap's `find` calls fail as soon as one recognised field is absent. */
  lemma FindLapValuesMissing(kept: seq<Field>, n: FieldName)
    requires n in LapFields && Find(kept, n).None?
    ensures FindLapValues(kept).Failure?
  {
    match n
    case AvgPower =>
    case TotalDistance =>
    case TotalMovingTime =>
    case AvgHeartRate =>
    case StartTime =>
  }

  /** A lap message without one of its five recognised fields fails with a missing-field error. */
  lemma LapMissingField(fields: seq<Field>, n: FieldName)
    requires n in LapFields && Find(fields, n).None?
    ensures LapFromFields(fields).Failure?
    ensures LapFromFields(fields).error.MissingField?
    ensures LapFromFields(fields).error.name in LapFields
    ensures Find(fields, LapFromFields(fields).error.name).None?
  {
    var kept := Keep(fields, LapFields);
    FindAfterKeep(fields, LapFields, n);
    FindLapValuesMissing(kept, n);
    var r := FindLapValues(kept);
    assert LapFromFields(fields) == Failure(r.error);
    FindAfterKeep(fields, LapFields, r.error.name);
  }

  /** An optional field is absent, or present and convertible. */
  ghost predicate OptionalI64(fields: seq<Field>, n: FieldName) {
    Find(fields, n).None? || AsI64(Find(fields, n).value).Some?
  }

  ghost predicate OptionalF64(fields: seq<Field>, n: FieldName) {
    Find(fields, n).None? || AsF64(Find(fields, n).value).Some?
  }

  /** The value of an optional integer field, 0 when it is absent. */
  ghost predicate I64OrDefault(fields: seq<Field>, n: FieldName, x: int) {
    if Find(fields, n).None? then x == 0 else AsI64(Find(fields, n).value) == Some(x)
  }

  ghost predicate F64OrDefault(fields: seq<Field>, n: FieldName, x: real) {
    if Find(fields, n).None? then x == 0.0 else AsF64(Find(fields, n).value) == Some(x)
  }

  /**
   * `Record::from_iter`: the timestamp is required; power, distance and
   * heart rate default to 0 when the message has no such field.
   */
  function RecordFromFields(fields: seq<Field>): (r: Result<Record, ParseError>)
    ensures r.Success? <==>
              && ConvertsI64(fields, Timestamp) && OptionalI64(fields, Power)
              && OptionalF64(fields, Distance) && OptionalI64(fields, HeartRate)
    ensures Find(fields, Timestamp).None? ==> r.Failure?
    ensures r.Success? ==>
              && r.value.id.None?
              && HasI64(fields, Timestamp, r.value.timestamp)
              && I64OrDefault(fields, Power, r.value.power)
              && F64OrDefault(fields, Distance, r.value.distance)
              && I64OrDefault(fields, HeartRate, r.value.heartRate)
  {
    var kept := Keep(fields, RecordFields);
    FindAfterKeep(fields, RecordFields, Power);
    FindAfterKeep(fields, RecordFields, Distance);
    FindAfterKeep(fields, RecordFields, Timestamp);
    FindAfterKeep(fields, RecordFields, HeartRate);
    var power :- I64OrZero(Find(kept, Power), Power);
    var distance :- F64OrZero(Find(kept, Distance), Distance);
    var timestamp :- Require(kept, Timestamp);
    var heartRate :- I64OrZero(Find(kept, HeartRate), HeartRate);
    var ts :- ToI64(timestamp, Timestamp);
    Success(Record(None, ts, heartRate, power, distance))
  }

  // ---------------------------------------------------------------------
  // Assembly from the message stream

  /** The messages of one kind, in stream order. */
  function OfKind(data: seq<DataRecord>, k: MesgNum): (r: seq<DataRecord>)
    ensures |r| <= |data|
    ensures forall m :: m in r ==> m in data && m.kind == k
    ensures forall m :: m in data && m.kind == k ==> m in r
    ensures |data| == 1 ==> r == (if data[0].kind == k then data else [])
  {
    if data == [] then []
    else if data[0].kind == k then [data[0]] + OfKind(data[1..], k)
    else OfKind(data[1..], k)
  }

  /**
   * Filtering a concatenation filters each part: with the one-message case
   * above, this fixes the filter as the kind's messages in stream order,
   * each as often as it occurs.
   */
  lemma {:induction false} OfKindAppend(a: seq<DataRecord>, b: seq<DataRecord>, k: MesgNum)
    ensures OfKind(a + b, k) == OfKind(a, k) + OfKind(b, k)
  {
    if a != [] {
      assert (a + b)[1..] == a[1..] + b;
      OfKindAppend(a[1..], b, k);
    } else {
      assert a + b == b;
    }
  }

  /** `skip(1).step_by(2)`: the elements at positions 1, 3, 5, ... */
  function OddPositions<T>(s: seq<T>): (r: seq<T>)
    ensures |r| == |s| / 2
    ensures forall i :: 0 <= i < |r| ==> r[i] == s[2 * i + 1]
  {
    if |s| < 2 then []
    else
      var rest := OddPositions(s[2..]);
      assert forall i :: 1 <= i < |rest| + 1 ==> ([s[1]] + rest)[i] == s[2 * i + 1];
      [s[1]] + rest
  }

  /**
   * The `map(..).collect()` of the lap and record readers: converts each
   * message's fields in turn; the first message that fails to convert (a
   * panic in the source) fails the whole list.
   */
  function ConvertAll<T>(convert: seq<Field> -> Result<T, ParseError>, msgs: seq<DataRecord>): (r: Result<seq<T>, ParseError>)
    ensures r.Success? ==> |r.value| == |msgs|
  {
    if msgs == [] then Success([])
    else
      var first :- convert(msgs[0].fields);
      var rest :- ConvertAll(convert, msgs[1..]);
      Success([first] + rest)
  }

  /**
   * Converting the messages succeeds exactly when every message converts,
   * and then the i-th result is what the i-th message converts to.
   */
  lemma {:induction false} ConvertAllEach<T>(convert: seq<Field> -> Result<T, ParseError>, msgs: seq<DataRecord>)
    ensures ConvertAll(convert, msgs).Success? <==> forall i :: 0 <= i < |msgs| ==> convert(msgs[i].fields).Success?
    ensures ConvertAll(convert, msgs).Success? ==>
              forall i :: 0 <= i < |msgs| ==> Success(ConvertAll(convert, msgs).value[i]) == convert(msgs[i].fields)
  {
    if msgs != [] {
      ConvertAllEach(convert, msgs[1..]);
      assert forall i :: 1 <= i < |msgs| ==> msgs[i] == msgs[1..][i - 1];
    }
  }

  /** `get_laps_data`: one lap per lap message. */
  function GetLapsData(data: seq<DataRecord>): (r: Result<seq<Lap>, ParseError>)
    ensures r.Success? ==> |r.value| == |OfKind(data, LapMesg)|
  {
    ConvertAll(LapFromFields, OfKind(data, LapMesg))
  }

  /** The laps come out in stream order, the i-th lap from the i-th lap message. */
  lemma GetLapsDataInOrder(data: seq<DataRecord>, i: int)
    ensures GetLapsData(data).Success? && 0 <= i < |GetLapsData(data).value| ==>
              Success(GetLapsData(data).value[i]) == LapFromFields(OfKind(data, LapMesg)[i].fields)
  {
    ConvertAllEach(LapFromFields, OfKind(data, LapMesg));
  }

  /** `get_record_data`: every second record message, so n record messages give n / 2 records. */
  function GetRecordData(data: seq<DataRecord>): (r: Result<seq<Record>, ParseError>)
    ensures r.Success? ==> |r.value| == |OfKind(data, RecordMesg)| / 2
  {
    ConvertAll(RecordFromFields, OddPositions(OfKind(data, RecordMesg)))
  }

  /** The i-th record comes from record message 2i + 1 (positions 1, 3, 5, ...). */
  lemma GetRecordDataInOrder(data: seq<DataRecord>, i: int)
    ensures GetRecordData(data).Success? && 0 <= i < |GetRecordData(data).value| ==>
              Success(GetRecordData(data).value[i]) == RecordFromFields(OfKind(data, RecordMesg)[2 * i + 1].fields)
  {
    ConvertAllEach(RecordFromFields, OddPositions(OfKind(data, RecordMesg)));
  }

  /** The raw `serial_number` value of every file-id message; each must have one. */
  function SerialNumbers(msgs: seq<DataRecord>): (r: Result<seq<Value>, ParseError>)
    ensures r.Success? <==> forall i :: 0 <= i < |msgs| ==> Find(msgs[i].fields, SerialNumber).Some?
    ensures r.Success? ==> |r.value| == |msgs|
    ensures r.Success? ==>
              forall i :: 0 <= i < |msgs| ==> Some(r.value[i]) == Find(msgs[i].fields, SerialNumber)
  {
    if msgs == [] then Success([])
    else
      var v :- Require(msgs[0].fields, SerialNumber);
      var rest :- SerialNumbers(msgs[1..]);
      assert forall i :: 1 <= i < |msgs| ==> msgs[i] == msgs[1..][i - 1];
      Success([v] + rest)
  }

  /**
   * `get_file_serial_num`: the serial number of the first file-id message,
   * after every file-id message has been searched for one.
   */
  function GetFileSerialNum(data: seq<DataRecord>): (r: Result<int, ParseError>)
    ensures OfKind(data, FileIdMesg) == [] ==> r.Failure?
    ensures r.Success? ==>
              OfKind(data, FileIdMesg) != [] &&
              HasI64(OfKind(data, FileIdMesg)[0].fields, SerialNumber, r.value)
  {
    var values :- SerialNumbers(OfKind(data, FileIdMesg));
    if values == [] then Failure(NoFileIdMessage)
    else ToI64(values[0], SerialNumber)
  }

  /**
   * The serial number is found exactly when there is a file-id message, every
   * file-id message has a `serial_number` and the first one converts; a
   * file-id message without one fails the whole search.
   */
  lemma GetFileSerialNumSucceeds(data: seq<DataRecord>)
    ensures GetFileSerialNum(data).Success? <==>
              && OfKind(data, FileIdMesg) != []
              && SerialNumbers(OfKind(data, FileIdMesg)).Success?
              && AsI64(Find(OfKind(data, FileIdMesg)[0].fields, SerialNumber).value).Some?
    ensures (exists i :: 0 <= i < |OfKind(data, FileIdMesg)| && Find(OfKind(data, FileIdMesg)[i].fields, SerialNumber).None?) ==>
              GetFileSerialNum(data) == Failure(MissingField(SerialNumber))
  {
    var msgs := OfKind(data, FileIdMesg);
    if exists i :: 0 <= i < |msgs| && Find(msgs[i].fields, SerialNumber).None? {
      SerialNumbersMissing(msgs);
    }
  }

  /** A file-id message without `serial_number` fails the search with that field named. */
  lemma {:induction false} SerialNumbersMissing(msgs: seq<DataRecord>)
    ensures (exists i :: 0 <= i < |msgs| && Find(msgs[i].fields, SerialNumber).None?) ==>
              SerialNumbers(msgs) == Failure(MissingField(SerialNumber))
  {
    if msgs != [] && Find(msgs[0].fields, SerialNumber).Some? {
      SerialNumbersMissing(msgs[1..]);
      if exists i :: 0 <= i < |msgs| && Find(msgs[i].fields, SerialNumber).None? {
        var i :| 0 <= i < |msgs| && Find(msgs[i].fields, SerialNumber).None?;
        assert msgs[1..][i - 1] == msgs[i];
      }
    }
  }

  /**
   * `get_session_data`: the first session message gives the session, the
   * file-id messages its serial number, the lap and record messages its laps
   * and records.
   */
  function GetSessionData(data: seq<DataRecord>): (r: Result<Session, ParseError>)
    ensures OfKind(data, SessionMesg) == [] ==> r == Failure(NoSessionMessage)
    ensures r.Success? ==>
              && OfKind(data, SessionMesg) != [] && OfKind(data, FileIdMesg) != []
              && HasI64(OfKind(data, FileIdMesg)[0].fields, SerialNumber, r.value.serialNum)
              && |r.value.laps| == |OfKind(data, LapMesg)|
              && |r.value.records| == |OfKind(data, RecordMesg)| / 2
    ensures r.Success? ==>
              GetLapsData(data) == Success(r.value.laps) && GetRecordData(data) == Success(r.value.records)
    ensures GetLapsData(data).Failure? || GetRecordData(data).Failure? ==> r.Failure?
  {
    var sessions := OfKind(data, SessionMesg);
    if sessions == [] then Failure(NoSessionMessage)
    else
      var session :- SessionFromFields(sessions[0].fields);
      var serial :- GetFileSerialNum(data);
      var laps :- GetLapsData(data);
      var records :- GetRecordData(data);
      Success(session.(serialNum := serial, laps := laps, records := records))
  }

  /**
   * A stream assembles exactly when its first session message, its serial
   * number, its laps and its records all extract, and the session is then
   * the first session message's, carrying those three.
   */
  lemma GetSessionDataSucceeds(data: seq<DataRecord>)
    ensures GetSessionData(data).Success? <==>
              && OfKind(data, SessionMesg) != []
              && SessionFromFields(OfKind(data, SessionMesg)[0].fields).Success?
              && GetFileSerialNum(data).Success?
              && GetLapsData(data).Success?
              && GetRecordData(data).Success?
    ensures GetSessionData(data).Success? ==>
              GetSessionData(data).value ==
              SessionFromFields(OfKind(data, SessionMesg)[0].fields).value.(
                serialNum := GetFileSerialNum(data).value,
                laps := GetLapsData(data).value,
                records := GetRecordData(data).value)
  {
  }

  /**
   * Apart from serial number, laps and records, the assembled session is
   * the one extracted from the first session message.
   */
  lemma GetSessionDataFromFirstSession(data: seq<DataRecord>)
    ensures GetSessionData(data).Success? ==>
              && OfKind(data, SessionMesg) != []
              && SessionFromFields(OfKind(data, SessionMesg)[0].fields) ==
                 Success(GetSessionData(data).value.(serialNum := 0, laps := [], records := []))
  {
    if GetSessionData(data).Failure? {
      return;
    }
    var session := SessionFromFields(OfKind(data, SessionMesg)[0].fields);
    var serial, laps, records := GetFileSerialNum(data), GetLapsData(data), GetRecordData(data);
    assert session.Success? && serial.Success? && laps.Success? && records.Success?;
    var assembled := session.value.(serialNum := serial.value, laps := laps.value, records := records.value);
    assert GetSessionData(data) == Success(assembled);
    assert assembled.(serialNum := 0, laps := [], records := []) == session.value;
  }

  /** `is_fit_file`: the path ends with ".fit". */
  function IsFitFile(path: string): (r: bool)
    ensures r <==> exists stem :: path == stem + ".fit"
  {
    var r := |path| >= 4 && path[|path| - 4..] == ".fit";
    assert r ==> path == path[..|path| - 4] + ".fit";
    assert forall stem :: path == stem + ".fit" ==> path[|path| - 4..] == ".fit";
    r
  }
}
