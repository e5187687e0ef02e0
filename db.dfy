/**
 * The session store (src/db.rs): three tables held as sequences of rows,
 * the overlap guard that refuses a session whose time interval meets a
 * stored one, the insert that appends a session with its laps and records,
 * the read-back queries and the two summary queries.
 *
 * Start times are compared as integers (the `start_time` column holds the
 * decimal text of an epoch second count). A new row's id is one more than
 * the largest id of its table, 1 for an empty table, as SQLite assigns rowids.
 */
module Db {
  import opened Wrappers
  import opened Parser
  import opened Summaries

  // ---------------------------------------------------------------------
  // Rows of the three tables

  datatype SessionRow = SessionRow(
    id: int,
    sport: string,
    subSport: string,
    avgPower: int,
    avgHeartRate: int,
    totalDistance: real,
    totalMovingTime: real,
    totalElapsedTime: real,
    avgCadence: int,
    serialNumber: int,
    startTime: int,
    thresholdPower: int)

  datatype LapRow = LapRow(
    id: int,
    avgHeartRate: int,
    avgPower: int,
    startTime: int,
    distance: real,
    totalMovingTime: real,
    sessionId: int)

  datatype RecordRow = RecordRow(
    id: int,
    heartRate: int,
    power: int,
    timestamp: int,
    distance: real,
    sessionId: int)

  /** Why an insert is refused. */
  datatype InsertError = SessionAlreadyExists

  /** The row a session insert binds; it reads back as the session under `id`. */
  function SessionRowOf(id: int, s: Session): (r: SessionRow)
    ensures r.id == id && SessionOf(r, s.laps, s.records) == s.(id := Some(id))
  {
    SessionRow(id, s.sport, s.subSport, s.avgPower, s.avgHeartRate, s.totalDistance,
               s.totalMovingTime, s.totalElapsedTime, s.avgCadence, s.serialNum,
               s.startTime, s.thresholdPower)
  }

  /** The row a lap insert binds; it reads back as the lap under `id`. */
  function LapRowOf(id: int, l: Lap, sessionId: int): (r: LapRow)
    ensures r.id == id && r.sessionId == sessionId && LapOf(r) == l.(id := Some(id))
  {
    LapRow(id, l.avgHeartRate, l.avgPower, l.startTime, l.totalDistance, l.totalMovingTime, sessionId)
  }

  /** The row a record insert binds; it reads back as the record under `id`. */
  function RecordRowOf(id: int, r: Record, sessionId: int): (row: RecordRow)
    ensures row.id == id && row.sessionId == sessionId && RecordOf(row) == r.(id := Some(id))
  {
    RecordRow(id, r.heartRate, r.power, r.timestamp, r.distance, sessionId)
  }

  /** The lap a lap row reads back as. */
  function LapOf(row: LapRow): Lap {
    Lap(Some(row.id), row.startTime, row.avgPower, row.avgHeartRate, row.totalMovingTime, row.distance)
  }

  /** The record a record row reads back as. */
  function RecordOf(row: RecordRow): Record {
    Record(Some(row.id), row.timestamp, row.heartRate, row.power, row.distance)
  }

  /** The session a session row reads back as, with the laps and records given. */
  function SessionOf(row: SessionRow, laps: seq<Lap>, records: seq<Record>): Session {
    Session(Some(row.id), row.startTime, row.totalElapsedTime, row.totalDistance, row.avgPower,
            row.totalMovingTime, row.avgHeartRate, row.thresholdPower, row.sport, row.subSport,
            row.avgCadence, laps, records, row.serialNumber)
  }

  /** The lap rows an insert writes: consecutive ids from `firstId`, all tagged with `sessionId`. */
  function LapRows(firstId: int, ls: seq<Lap>, sessionId: int): seq<LapRow> {
    seq(|ls|, k requires 0 <= k < |ls| => LapRowOf(firstId + k, ls[k], sessionId))
  }

  function RecordRows(firstId: int, rs: seq<Record>, sessionId: int): seq<RecordRow> {
    seq(|rs|, k requires 0 <= k < |rs| => RecordRowOf(firstId + k, rs[k], sessionId))
  }

  lemma LapRowsSnoc(firstId: int, ls: seq<Lap>, i: int, sessionId: int)
    requires 0 <= i < |ls|
    ensures LapRows(firstId, ls[..i + 1], sessionId) ==
            LapRows(firstId, ls[..i], sessionId) + [LapRowOf(firstId + i, ls[i], sessionId)]
  {
  }

  lemma RecordRowsSnoc(firstId: int, rs: seq<Record>, i: int, sessionId: int)
    requires 0 <= i < |rs|
    ensures RecordRows(firstId, rs[..i + 1], sessionId) ==
            RecordRows(firstId, rs[..i], sessionId) + [RecordRowOf(firstId + i, rs[i], sessionId)]
  {
  }

  // ---------------------------------------------------------------------
  // Row ids

  ghost predicate SessionIdsAscending(rows: seq<SessionRow>) {
    && (forall i :: 0 <= i < |rows| ==> rows[i].id >= 1)
    && (forall i, j :: 0 <= i < j < |rows| ==> rows[i].id < rows[j].id)
  }

  ghost predicate LapIdsAscending(rows: seq<LapRow>) {
    && (forall i :: 0 <= i < |rows| ==> rows[i].id >= 1)
    && (forall i, j :: 0 <= i < j < |rows| ==> rows[i].id < rows[j].id)
  }

  ghost predicate RecordIdsAscending(rows: seq<RecordRow>) {
    && (forall i :: 0 <= i < |rows| ==> rows[i].id >= 1)
    && (forall i, j :: 0 <= i < j < |rows| ==> rows[i].id < rows[j].id)
  }

  function NextSessionId(rows: seq<SessionRow>): int {
    if rows == [] then 1 else rows[|rows| - 1].id + 1
  }

  function NextLapId(rows: seq<LapRow>): int {
    if rows == [] then 1 else rows[|rows| - 1].id + 1
  }

  function NextRecordId(rows: seq<RecordRow>): int {
    if rows == [] then 1 else rows[|rows| - 1].id + 1
  }

  /** Lap ids ascend and every lap belongs to a session id below `nextSession`. */
  ghost predicate LapsValid(rows: seq<LapRow>, nextSession: int) {
    && LapIdsAscending(rows)
    && (forall k :: 0 <= k < |rows| ==> rows[k].sessionId < nextSession)
  }

  /** Record ids ascend and every record belongs to a session id below `nextSession`. */
  ghost predicate RecordsValid(rows: seq<RecordRow>, nextSession: int) {
    && RecordIdsAscending(rows)
    && (forall k :: 0 <= k < |rows| ==> rows[k].sessionId < nextSession)
  }

  /** Appending a lap row under the next id keeps the lap table valid and advances the next id. */
  lemma LapsValidSnoc(rows: seq<LapRow>, l: Lap, sessionId: int, nextSession: int)
    requires LapsValid(rows, nextSession)
    requires sessionId < nextSession
    ensures LapsValid(rows + [LapRowOf(NextLapId(rows), l, sessionId)], nextSession)
    ensures NextLapId(rows + [LapRowOf(NextLapId(rows), l, sessionId)]) == NextLapId(rows) + 1
  {
    var rows' := rows + [LapRowOf(NextLapId(rows), l, sessionId)];
    forall i, j | 0 <= i < j < |rows'|
      ensures rows'[i].id < rows'[j].id
    {
      if j == |rows| && rows != [] {
        assert rows[i].id <= rows[|rows| - 1].id;
      }
    }
  }

  /** Appending a record row under the next id keeps the record table valid and advances the next id. */
  lemma RecordsValidSnoc(rows: seq<RecordRow>, r: Record, sessionId: int, nextSession: int)
    requires RecordsValid(rows, nextSession)
    requires sessionId < nextSession
    ensures RecordsValid(rows + [RecordRowOf(NextRecordId(rows), r, sessionId)], nextSession)
    ensures NextRecordId(rows + [RecordRowOf(NextRecordId(rows), r, sessionId)]) == NextRecordId(rows) + 1
  {
    var rows' := rows + [RecordRowOf(NextRecordId(rows), r, sessionId)];
    forall i, j | 0 <= i < j < |rows'|
      ensures rows'[i].id < rows'[j].id
    {
      if j == |rows| && rows != [] {
        assert rows[i].id <= rows[|rows| - 1].id;
      }
    }
  }

  /** The next session id is larger than every id in use, so it is fresh. */
  lemma NextSessionIdFresh(rows: seq<SessionRow>)
    requires SessionIdsAscending(rows)
    ensures NextSessionId(rows) >= 1
    ensures forall i :: 0 <= i < |rows| ==> rows[i].id < NextSessionId(rows)
  {
  }

  // ---------------------------------------------------------------------
  // The overlap guard

  /** The value is a whole number: its decimal text parses as an integer. */
  predicate Integral(x: real) {
    x.Floor as real == x
  }

  /**
   * The `where` clause of `session_exists`: the candidate interval [a, b]
   * hits the stored interval [s, e] when either candidate end lies inside
   * the stored interval or the candidate covers it.
   */
  predicate Hits(a: real, b: real, s: real, e: real) {
    (s <= a <= e) || (s <= b <= e) || (a <= s && b >= e)
  }

  /** For well-formed intervals the guard is exactly closed-interval intersection. */
  lemma HitsIsIntersection(a: real, b: real, s: real, e: real)
    requires a <= b && s <= e
    ensures Hits(a, b, s, e) <==> a <= e && s <= b
  {
  }

  /** Hits is symmetric for well-formed intervals. */
  lemma HitsSymmetric(a: real, b: real, s: real, e: real)
    requires a <= b && s <= e
    ensures Hits(a, b, s, e) <==> Hits(s, e, a, b)
  {
    HitsIsIntersection(a, b, s, e);
    HitsIsIntersection(s, e, a, b);
  }

  /** The candidate's end: its start plus its elapsed time parsed as an integer. */
  function CandidateEnd(s: Session): (end: int)
    requires Integral(s.totalElapsedTime)
    ensures end as real == s.startTime as real + s.totalElapsedTime
  {
    s.startTime + s.totalElapsedTime.Floor
  }

  /** The candidate session meets the stored row's interval. */
  predicate Overlaps(s: Session, row: SessionRow)
    requires Integral(s.totalElapsedTime)
  {
    Hits(s.startTime as real, CandidateEnd(s) as real,
         row.startTime as real, row.startTime as real + row.totalElapsedTime)
  }

  /** A stored row meets an earlier stored row, judged as the guard judged it. */
  predicate RowOverlaps(later: SessionRow, earlier: SessionRow) {
    Hits(later.startTime as real, later.startTime as real + later.totalElapsedTime,
         earlier.startTime as real, earlier.startTime as real + earlier.totalElapsedTime)
  }

  /** `session_exists`: some stored session's interval meets the candidate's. */
  function SessionExists(rows: seq<SessionRow>, s: Session): (r: bool)
    requires Integral(s.totalElapsedTime)
    ensures r <==> exists i :: 0 <= i < |rows| && Overlaps(s, rows[i])
  {
    if rows == [] then false
    else if Overlaps(s, rows[0]) then true
    else
      var r := SessionExists(rows[1..], s);
      assert forall i :: 1 <= i < |rows| ==> rows[i] == rows[1..][i - 1];
      r
  }

  /** Storing one more row adds exactly that row's interval to what the guard checks against. */
  lemma SessionExistsAfterAppend(rows: seq<SessionRow>, row: SessionRow, s: Session)
    requires Integral(s.totalElapsedTime)
    ensures SessionExists(rows + [row], s) <==> SessionExists(rows, s) || Overlaps(s, row)
  {
    var all := rows + [row];
    assert all[|rows|] == row;
    assert forall i :: 0 <= i < |rows| ==> all[i] == rows[i];
  }

  /**
   * Two sessions whose intervals do not meet never block each other: when
   * the store admits each of them on its own, it admits the second after
   * the first, in either order.
   */
  lemma DisjointSessionsBothInsert(rows: seq<SessionRow>, a: Session, b: Session, id: int)
    requires Integral(a.totalElapsedTime) && Integral(b.totalElapsedTime)
    requires a.totalElapsedTime >= 0.0 && b.totalElapsedTime >= 0.0
    requires a.startTime as real + a.totalElapsedTime < b.startTime as real ||
             b.startTime as real + b.totalElapsedTime < a.startTime as real
    requires !SessionExists(rows, a) && !SessionExists(rows, b)
    ensures !SessionExists(rows + [SessionRowOf(id, a)], b)
    ensures !SessionExists(rows + [SessionRowOf(id, b)], a)
  {
    SessionExistsAfterAppend(rows, SessionRowOf(id, a), b);
    SessionExistsAfterAppend(rows, SessionRowOf(id, b), a);
    HitsIsIntersection(b.startTime as real, CandidateEnd(b) as real,
                       a.startTime as real, a.startTime as real + a.totalElapsedTime);
    HitsIsIntersection(a.startTime as real, CandidateEnd(a) as real,
                       b.startTime as real, b.startTime as real + b.totalElapsedTime);
  }

  /** A session starting inside a stored session's interval is refused. */
  lemma StartInsideIsRefused(rows: seq<SessionRow>, a: Session, b: Session, id: int)
    requires Integral(b.totalElapsedTime)
    requires a.startTime <= b.startTime
    requires b.startTime as real <= a.startTime as real + a.totalElapsedTime
    ensures SessionExists(rows + [SessionRowOf(id, a)], b)
  {
    SessionExistsAfterAppend(rows, SessionRowOf(id, a), b);
  }

  /**
   * Against a stored ride from 1000 lasting 3600, a ride from 4700 lasting
   * 600 is admitted and one from 3000 lasting 100 is refused.
   */
  lemma OverlapExamples(a: Session, b: Session, c: Session)
    requires a.startTime == 1000 && a.totalElapsedTime == 3600.0
    requires b.startTime == 4700 && b.totalElapsedTime == 600.0
    requires c.startTime == 3000 && c.totalElapsedTime == 100.0
    ensures !SessionExists([SessionRowOf(1, a)], b)
    ensures SessionExists([SessionRowOf(1, a)], c)
  {
    assert Integral(600.0) && Integral(100.0) by {
      assert (600.0).Floor == 600 && (100.0).Floor == 100;
    }
    assert CandidateEnd(b) == 5300;
  }

  /** Each stored session was checked against every session stored before it. */
  ghost predicate NoOverlap(rows: seq<SessionRow>) {
    forall i, j :: 0 <= i < j < |rows| ==> !RowOverlaps(rows[j], rows[i])
  }

  /**
   * When every stored elapsed time is non-negative, no two stored sessions'
   * closed intervals intersect, in either order.
   */
  lemma NoOverlapDisjoint(rows: seq<SessionRow>, i: int, j: int)
    requires NoOverlap(rows)
    requires forall k :: 0 <= k < |rows| ==> rows[k].totalElapsedTime >= 0.0
    requires 0 <= i < |rows| && 0 <= j < |rows| && i != j
    ensures rows[i].startTime as real + rows[i].totalElapsedTime < rows[j].startTime as real ||
            rows[j].startTime as real + rows[j].totalElapsedTime < rows[i].startTime as real
  {
    var lo, hi := if i < j then i else j, if i < j then j else i;
    assert !RowOverlaps(rows[hi], rows[lo]);
    HitsIsIntersection(rows[hi].startTime as real, rows[hi].startTime as real + rows[hi].totalElapsedTime,
                       rows[lo].startTime as real, rows[lo].startTime as real + rows[lo].totalElapsedTime);
  }

  // ---------------------------------------------------------------------
  // The store

  class Store {
    var sessions: seq<SessionRow>
    var laps: seq<LapRow>
    var records: seq<RecordRow>

    /**
     * Ids ascend in each table (so the next id is fresh), every lap and
     * record belongs to an id already handed out, and no stored session
     * overlapped one stored before it.
     */
    ghost predicate Valid()
      reads this
    {
      && SessionIdsAscending(sessions)
      && LapsValid(laps, NextSessionId(sessions))
      && RecordsValid(records, NextSessionId(sessions))
      && NoOverlap(sessions)
    }

    /** Empty tables. */
    constructor ()
      ensures Valid()
      ensures sessions == [] && laps == [] && records == []
    {
      sessions, laps, records := [], [], [];
    }

    /**
     * `insert_session`: refuse a session that overlaps a stored one and
     * change nothing; otherwise append its row under a fresh id, then one
     * row per lap and one per record, in order, all tagged with that id.
     */
    method InsertSession(s: Session) returns (r: Result<int, InsertError>)
      requires Valid()
      requires Integral(s.totalElapsedTime)
      modifies this
      ensures Valid()
      ensures SessionExists(old(sessions), s) ==>
                && r == Failure(SessionAlreadyExists)
                && sessions == old(sessions) && laps == old(laps) && records == old(records)
      ensures !SessionExists(old(sessions), s) ==>
                && r == Success(old(NextSessionId(sessions)))
                && sessions == old(sessions) + [SessionRowOf(r.value, s)]
                && laps == old(laps) + LapRows(old(NextLapId(laps)), s.laps, r.value)
                && records == old(records) + RecordRows(old(NextRecordId(records)), s.records, r.value)
    {
      if SessionExists(sessions, s) {
        return Failure(SessionAlreadyExists);
      }
      var id := AppendSession(s);
      AppendLaps(s.laps, id);
      AppendRecords(s.records, id);
      return Success(id);
    }

    /** The session row of an insert the guard let through, under the next id. */
    method AppendSession(s: Session) returns (id: int)
      requires Valid()
      requires Integral(s.totalElapsedTime)
      requires !SessionExists(sessions, s)
      modifies this
      ensures Valid()
      ensures id == old(NextSessionId(sessions))
      ensures sessions == old(sessions) + [SessionRowOf(id, s)]
      ensures laps == old(laps) && records == old(records)
    {
      id := NextSessionId(sessions);
      NextSessionIdFresh(sessions);
      sessions := sessions + [SessionRowOf(id, s)];
      assert NextSessionId(sessions) == id + 1;
      forall i | 0 <= i < |sessions| - 1
        ensures !RowOverlaps(sessions[|sessions| - 1], sessions[i])
      {
        assert !Overlaps(s, old(sessions)[i]);
      }
    }

    /** The lap loop of an insert: one row per lap, in order, under consecutive ids. */
    method AppendLaps(ls: seq<Lap>, sessionId: int)
      requires Valid()
      requires sessionId < NextSessionId(sessions)
      modifies this
      ensures Valid()
      ensures sessions == old(sessions) && records == old(records)
      ensures laps == old(laps) + LapRows(old(NextLapId(laps)), ls, sessionId)
    {
      var firstLap := NextLapId(laps);
      var i := 0;
      while i < |ls|
        invariant 0 <= i <= |ls|
        invariant sessions == old(sessions) && records == old(records)
        invariant laps == old(laps) + LapRows(firstLap, ls[..i], sessionId)
        invariant NextLapId(laps) == firstLap + i
        invariant LapsValid(laps, NextSessionId(sessions))
      {
        LapsValidSnoc(laps, ls[i], sessionId, NextSessionId(sessions));
        laps := laps + [LapRowOf(NextLapId(laps), ls[i], sessionId)];
        LapRowsSnoc(firstLap, ls, i, sessionId);
        i := i + 1;
      }
      assert ls[..i] == ls;
    }

    /** The record loop of an insert: one row per record, in order, under consecutive ids. */
    method AppendRecords(rs: seq<Record>, sessionId: int)
      requires Valid()
      requires sessionId < NextSessionId(sessions)
      modifies this
      ensures Valid()
      ensures sessions == old(sessions) && laps == old(laps)
      ensures records == old(records) + RecordRows(old(NextRecordId(records)), rs, sessionId)
    {
      var firstRecord := NextRecordId(records);
      var j := 0;
      while j < |rs|
        invariant 0 <= j <= |rs|
        invariant sessions == old(sessions) && laps == old(laps)
        invariant records == old(records) + RecordRows(firstRecord, rs[..j], sessionId)
        invariant NextRecordId(records) == firstRecord + j
        invariant RecordsValid(records, NextSessionId(sessions))
      {
        RecordsValidSnoc(records, rs[j], sessionId, NextSessionId(sessions));
        records := records + [RecordRowOf(NextRecordId(records), rs[j], sessionId)];
        RecordRowsSnoc(firstRecord, rs, j, sessionId);
        j := j + 1;
      }
      assert rs[..j] == rs;
    }
  }

  // ---------------------------------------------------------------------
  // Reading laps and records back

  /** `get_laps_by_session_id`: the laps of the rows tagged `sessionId`, in row order. */
  function LapsBySessionId(table: seq<LapRow>, sessionId: int): seq<Lap> {
    if table == [] then []
    else (if table[0].sessionId == sessionId then [LapOf(table[0])] else [])
         + LapsBySessionId(table[1..], sessionId)
  }

  /** `get_records_by_session_id`: the records of the rows tagged `sessionId`, in row order. */
  function RecordsBySessionId(table: seq<RecordRow>, sessionId: int): seq<Record> {
    if table == [] then []
    else (if table[0].sessionId == sessionId then [RecordOf(table[0])] else [])
         + RecordsBySessionId(table[1..], sessionId)
  }

  /** Every lap read back for `sessionId` is the reading of a row tagged with `sessionId`. */
  lemma {:induction false} LapsBySessionIdTagged(table: seq<LapRow>, sessionId: int)
    ensures forall x :: x in LapsBySessionId(table, sessionId) ==>
              exists j :: 0 <= j < |table| && table[j].sessionId == sessionId && x == LapOf(table[j])
  {
    if table != [] {
      LapsBySessionIdTagged(table[1..], sessionId);
      forall x | x in LapsBySessionId(table, sessionId)
        ensures exists j :: 0 <= j < |table| && table[j].sessionId == sessionId && x == LapOf(table[j])
      {
        if x !in LapsBySessionId(table[1..], sessionId) {
          assert table[0].sessionId == sessionId && x == LapOf(table[0]);
        } else {
          var j :| 0 <= j < |table[1..]| && table[1..][j].sessionId == sessionId && x == LapOf(table[1..][j]);
          assert table[j + 1] == table[1..][j];
        }
      }
    }
  }

  lemma {:induction false} LapsBySessionIdAppend(a: seq<LapRow>, b: seq<LapRow>, sessionId: int)
    ensures LapsBySessionId(a + b, sessionId) == LapsBySessionId(a, sessionId) + LapsBySessionId(b, sessionId)
  {
    if a == [] {
      assert a + b == b;
    } else {
      var head := if a[0].sessionId == sessionId then [LapOf(a[0])] else [];
      assert (a + b)[0] == a[0];
      assert (a + b)[1..] == a[1..] + b;
      LapsBySessionIdAppend(a[1..], b, sessionId);
      assert LapsBySessionId(a + b, sessionId) == head + LapsBySessionId(a[1..] + b, sessionId);
      assert LapsBySessionId(a, sessionId) == head + LapsBySessionId(a[1..], sessionId);
    }
  }

  /** Every record read back for `sessionId` is the reading of a row tagged with `sessionId`. */
  lemma {:induction false} RecordsBySessionIdTagged(table: seq<RecordRow>, sessionId: int)
    ensures forall x :: x in RecordsBySessionId(table, sessionId) ==>
              exists j :: 0 <= j < |table| && table[j].sessionId == sessionId && x == RecordOf(table[j])
  {
    if table != [] {
      RecordsBySessionIdTagged(table[1..], sessionId);
      forall x | x in RecordsBySessionId(table, sessionId)
        ensures exists j :: 0 <= j < |table| && table[j].sessionId == sessionId && x == RecordOf(table[j])
      {
        if x !in RecordsBySessionId(table[1..], sessionId) {
          assert table[0].sessionId == sessionId && x == RecordOf(table[0]);
        } else {
          var j :| 0 <= j < |table[1..]| && table[1..][j].sessionId == sessionId && x == RecordOf(table[1..][j]);
          assert table[j + 1] == table[1..][j];
        }
      }
    }
  }

  lemma {:induction false} RecordsBySessionIdAppend(a: seq<RecordRow>, b: seq<RecordRow>, sessionId: int)
    ensures RecordsBySessionId(a + b, sessionId) == RecordsBySessionId(a, sessionId) + RecordsBySessionId(b, sessionId)
  {
    if a == [] {
      assert a + b == b;
    } else {
      var head := if a[0].sessionId == sessionId then [RecordOf(a[0])] else [];
      assert (a + b)[0] == a[0];
      assert (a + b)[1..] == a[1..] + b;
      RecordsBySessionIdAppend(a[1..], b, sessionId);
      assert RecordsBySessionId(a + b, sessionId) == head + RecordsBySessionId(a[1..] + b, sessionId);
      assert RecordsBySessionId(a, sessionId) == head + RecordsBySessionId(a[1..], sessionId);
    }
  }

  /** A table with no row tagged `sessionId` yields no laps for it. */
  lemma {:induction false} LapsBySessionIdAbsent(table: seq<LapRow>, sessionId: int)
    requires forall k :: 0 <= k < |table| ==> table[k].sessionId != sessionId
    ensures LapsBySessionId(table, sessionId) == []
  {
    if table != [] {
      LapsBySessionIdAbsent(table[1..], sessionId);
    }
  }

  lemma {:induction false} RecordsBySessionIdAbsent(table: seq<RecordRow>, sessionId: int)
    requires forall k :: 0 <= k < |table| ==> table[k].sessionId != sessionId
    ensures RecordsBySessionId(table, sessionId) == []
  {
    if table != [] {
      RecordsBySessionIdAbsent(table[1..], sessionId);
    }
  }

  /** The rows an insert writes for a session's laps read back as those laps, each with its row id. */
  lemma {:induction false} LapRowsReadBack(firstId: int, ls: seq<Lap>, sessionId: int)
    decreases |ls|
    ensures |LapsBySessionId(LapRows(firstId, ls, sessionId), sessionId)| == |ls|
    ensures forall k :: 0 <= k < |ls| ==>
              LapsBySessionId(LapRows(firstId, ls, sessionId), sessionId)[k] == ls[k].(id := Some(firstId + k))
  {
    if ls != [] {
      LapRowsReadBack(firstId + 1, ls[1..], sessionId);
      assert LapRows(firstId, ls, sessionId)[1..] == LapRows(firstId + 1, ls[1..], sessionId);
    }
  }

  lemma {:induction false} RecordRowsReadBack(firstId: int, rs: seq<Record>, sessionId: int)
    decreases |rs|
    ensures |RecordsBySessionId(RecordRows(firstId, rs, sessionId), sessionId)| == |rs|
    ensures forall k :: 0 <= k < |rs| ==>
              RecordsBySessionId(RecordRows(firstId, rs, sessionId), sessionId)[k] == rs[k].(id := Some(firstId + k))
  {
    if rs != [] {
      RecordRowsReadBack(firstId + 1, rs[1..], sessionId);
      assert RecordRows(firstId, rs, sessionId)[1..] == RecordRows(firstId + 1, rs[1..], sessionId);
    }
  }

  /**
   * Round trip: after a successful insert under `id`, reading the laps of
   * `id` gives back the session's laps in their original order, each
   * carrying its new row id and nothing else changed.
   */
  lemma InsertedLapsRoundTrip(oldLaps: seq<LapRow>, ls: seq<Lap>, id: int)
    requires forall k :: 0 <= k < |oldLaps| ==> oldLaps[k].sessionId < id
    ensures |LapsBySessionId(oldLaps + LapRows(NextLapId(oldLaps), ls, id), id)| == |ls|
    ensures forall k :: 0 <= k < |ls| ==>
              LapsBySessionId(oldLaps + LapRows(NextLapId(oldLaps), ls, id), id)[k] ==
              ls[k].(id := Some(NextLapId(oldLaps) + k))
  {
    var added := LapRows(NextLapId(oldLaps), ls, id);
    LapsBySessionIdAppend(oldLaps, added, id);
    LapsBySessionIdAbsent(oldLaps, id);
    LapRowsReadBack(NextLapId(oldLaps), ls, id);
    assert LapsBySessionId(oldLaps + added, id) == LapsBySessionId(added, id);
  }

  /** The same round trip for the records of an inserted session. */
  lemma InsertedRecordsRoundTrip(oldRecords: seq<RecordRow>, rs: seq<Record>, id: int)
    requires forall k :: 0 <= k < |oldRecords| ==> oldRecords[k].sessionId < id
    ensures |RecordsBySessionId(oldRecords + RecordRows(NextRecordId(oldRecords), rs, id), id)| == |rs|
    ensures forall k :: 0 <= k < |rs| ==>
              RecordsBySessionId(oldRecords + RecordRows(NextRecordId(oldRecords), rs, id), id)[k] ==
              rs[k].(id := Some(NextRecordId(oldRecords) + k))
  {
    var added := RecordRows(NextRecordId(oldRecords), rs, id);
    RecordsBySessionIdAppend(oldRecords, added, id);
    RecordsBySessionIdAbsent(oldRecords, id);
    RecordRowsReadBack(NextRecordId(oldRecords), rs, id);
    assert RecordsBySessionId(oldRecords + added, id) == RecordsBySessionId(added, id);
  }

  // ---------------------------------------------------------------------
  // All sessions, latest first

  ghost predicate DescendingByStart(rows: seq<SessionRow>) {
    forall i, j :: 0 <= i < j < |rows| ==> rows[i].startTime >= rows[j].startTime
  }

  /** Puts `row` into a list sorted by start time, latest first, in front of the first row that is not later. */
  function InsertByStart(row: SessionRow, sorted: seq<SessionRow>): (r: seq<SessionRow>)
    ensures |r| == |sorted| + 1
  {
    if sorted == [] || row.startTime >= sorted[0].startTime then [row] + sorted
    else [sorted[0]] + InsertByStart(row, sorted[1..])
  }

  /** Inserting into a list sorted latest first keeps it sorted; the head is the new row or the old head. */
  lemma {:induction false} InsertByStartSorted(row: SessionRow, sorted: seq<SessionRow>)
    requires DescendingByStart(sorted)
    ensures DescendingByStart(InsertByStart(row, sorted))
    ensures InsertByStart(row, sorted)[0] == row || (sorted != [] && InsertByStart(row, sorted)[0] == sorted[0])
  {
    if sorted == [] || row.startTime >= sorted[0].startTime {
    } else {
      var rest := InsertByStart(row, sorted[1..]);
      InsertByStartSorted(row, sorted[1..]);
      assert sorted[0].startTime >= rest[0].startTime;
      var r := [sorted[0]] + rest;
      forall i, j | 0 <= i < j < |r|
        ensures r[i].startTime >= r[j].startTime
      {
        if i == 0 {
          assert rest[0].startTime >= rest[j - 1].startTime;
        } else {
          assert r[i] == rest[i - 1] && r[j] == rest[j - 1];
        }
      }
    }
  }

  /** Inserting adds exactly the new row and drops none. */
  lemma {:induction false} InsertByStartPermutes(row: SessionRow, sorted: seq<SessionRow>)
    ensures multiset(InsertByStart(row, sorted)) == multiset(sorted) + multiset{row}
  {
    if sorted == [] || row.startTime >= sorted[0].startTime {
    } else {
      InsertByStartPermutes(row, sorted[1..]);
      assert sorted == [sorted[0]] + sorted[1..];
    }
  }

  /** The `order by start_time desc` of `get_all_sessions`, as an insertion sort. */
  function SortByStartDesc(rows: seq<SessionRow>): (r: seq<SessionRow>)
    ensures |r| == |rows|
  {
    if rows == [] then []
    else InsertByStart(rows[0], SortByStartDesc(rows[1..]))
  }

  /** The sort yields a permutation of the rows, latest first. */
  lemma {:induction false} SortByStartDescSorted(rows: seq<SessionRow>)
    ensures DescendingByStart(SortByStartDesc(rows))
    ensures multiset(SortByStartDesc(rows)) == multiset(rows)
  {
    if rows != [] {
      SortByStartDescSorted(rows[1..]);
      InsertByStartSorted(rows[0], SortByStartDesc(rows[1..]));
      InsertByStartPermutes(rows[0], SortByStartDesc(rows[1..]));
      assert rows == [rows[0]] + rows[1..];
    }
  }

  /** A stored session as read back: its row with the laps and records tagged with its id. */
  function WithChildren(row: SessionRow, laps: seq<LapRow>, records: seq<RecordRow>): Session {
    SessionOf(row, LapsBySessionId(laps, row.id), RecordsBySessionId(records, row.id))
  }

  function AttachChildren(rows: seq<SessionRow>, laps: seq<LapRow>, records: seq<RecordRow>): (r: seq<Session>)
    ensures |r| == |rows|
  {
    if rows == [] then []
    else [WithChildren(rows[0], laps, records)] + AttachChildren(rows[1..], laps, records)
  }

  lemma {:induction false} AttachChildrenAt(rows: seq<SessionRow>, laps: seq<LapRow>, records: seq<RecordRow>, k: int)
    requires 0 <= k < |rows|
    ensures AttachChildren(rows, laps, records)[k] == WithChildren(rows[k], laps, records)
  {
    if k > 0 {
      AttachChildrenAt(rows[1..], laps, records, k - 1);
    }
  }

  /** `get_all_sessions`: every stored session, latest first, each with its laps and records. */
  function GetAllSessions(sessions: seq<SessionRow>, laps: seq<LapRow>, records: seq<RecordRow>): (r: seq<Session>)
    ensures |r| == |sessions|
  {
    AttachChildren(SortByStartDesc(sessions), laps, records)
  }

  /**
   * The sessions come back latest first, one per stored row, each with the
   * laps and records stored under its id, and nothing else comes back.
   */
  lemma GetAllSessionsLatestFirst(sessions: seq<SessionRow>, laps: seq<LapRow>, records: seq<RecordRow>)
    ensures |GetAllSessions(sessions, laps, records)| == |sessions|
    ensures forall i, j :: 0 <= i < j < |GetAllSessions(sessions, laps, records)| ==>
              GetAllSessions(sessions, laps, records)[i].startTime >=
              GetAllSessions(sessions, laps, records)[j].startTime
    ensures forall row :: row in sessions ==> WithChildren(row, laps, records) in GetAllSessions(sessions, laps, records)
    ensures forall k :: 0 <= k < |GetAllSessions(sessions, laps, records)| ==>
              exists row :: row in sessions && GetAllSessions(sessions, laps, records)[k] == WithChildren(row, laps, records)
  {
    var sorted := SortByStartDesc(sessions);
    SortByStartDescSorted(sessions);
    var r := GetAllSessions(sessions, laps, records);
    forall k | 0 <= k < |r|
      ensures r[k] == WithChildren(sorted[k], laps, records) && sorted[k] in sessions
    {
      AttachChildrenAt(sorted, laps, records, k);
      assert sorted[k] in multiset(sorted);
    }
    forall row | row in sessions
      ensures WithChildren(row, laps, records) in r
    {
      assert row in multiset(sorted);
      var k :| 0 <= k < |sorted| && sorted[k] == row;
    }
  }

  // ---------------------------------------------------------------------
  // Summaries

  /** Summed distance, summed moving time and count of a set of session rows. */
  datatype Totals = Totals(distance: real, time: real, count: int)

  function Plus(a: Totals, b: Totals): Totals {
    Totals(a.distance + b.distance, a.time + b.time, a.count + b.count)
  }

  const NoTotals: Totals := Totals(0.0, 0.0, 0)

  function RowTotals(rows: seq<SessionRow>): (t: Totals)
    ensures t.count == |rows|
  {
    if rows == [] then NoTotals
    else Plus(RowTotals(rows[..|rows| - 1]),
              Totals(rows[|rows| - 1].totalDistance, rows[|rows| - 1].totalMovingTime, 1))
  }

  /**
   * `get_overall_summary`: no sub-sport, the sums of distance and moving
   * time and the number of sessions; the year is not used.
   */
  function GetOverallSummary(rows: seq<SessionRow>, year: int): (s: Summary)
    ensures s.subSport.None?
    ensures s.ridesCount == |rows|
    ensures s.totalDistance == RowTotals(rows).distance && s.totalTime == RowTotals(rows).time
  {
    Summary(None, RowTotals(rows).distance, RowTotals(rows).time, |rows|)
  }

  /** The rows of one sub-sport, in table order. */
  function OfSubSport(rows: seq<SessionRow>, subSport: string): (r: seq<SessionRow>)
    ensures forall x :: x in r <==> x in rows && x.subSport == subSport
  {
    if rows == [] then []
    else
      var group := OfSubSport(rows[..|rows| - 1], subSport);
      if rows[|rows| - 1].subSport == subSport then group + [rows[|rows| - 1]] else group
  }

  lemma OfSubSportSnoc(rows: seq<SessionRow>, x: SessionRow, subSport: string)
    ensures OfSubSport(rows + [x], subSport) ==
            if x.subSport == subSport then OfSubSport(rows, subSport) + [x] else OfSubSport(rows, subSport)
  {
    assert (rows + [x])[..|rows + [x]| - 1] == rows;
  }

  lemma RowTotalsSnoc(rows: seq<SessionRow>, x: SessionRow)
    ensures RowTotals(rows + [x]) == Plus(RowTotals(rows), Totals(x.totalDistance, x.totalMovingTime, 1))
  {
    assert (rows + [x])[..|rows + [x]| - 1] == rows;
  }

  /** A row of the table puts its sub-sport's group among the non-empty ones. */
  lemma {:induction false} OfSubSportNonEmpty(rows: seq<SessionRow>, x: SessionRow)
    requires x in rows
    ensures OfSubSport(rows, x.subSport) != []
  {
    var init := rows[..|rows| - 1];
    assert rows == init + [rows[|rows| - 1]];
    if rows[|rows| - 1] != x {
      assert x in init;
      OfSubSportNonEmpty(init, x);
    }
  }

  /** The distinct sub-sports of the rows, in order of first appearance. */
  function SubSports(rows: seq<SessionRow>): seq<string> {
    if rows == [] then []
    else
      var keys := SubSports(rows[..|rows| - 1]);
      if rows[|rows| - 1].subSport in keys then keys else keys + [rows[|rows| - 1].subSport]
  }

  /**
   * The sub-sports listed are distinct, every row's sub-sport is listed and
   * every listed sub-sport has at least one row.
   */
  lemma {:induction false} SubSportsExact(rows: seq<SessionRow>)
    ensures forall i, j :: 0 <= i < j < |SubSports(rows)| ==> SubSports(rows)[i] != SubSports(rows)[j]
    ensures forall x :: x in rows ==> x.subSport in SubSports(rows)
    ensures forall k :: k in SubSports(rows) ==> OfSubSport(rows, k) != []
  {
    if rows != [] {
      var init, last := rows[..|rows| - 1], rows[|rows| - 1];
      assert rows == init + [last];
      SubSportsExact(init);
      forall k | k in SubSports(rows)
        ensures OfSubSport(rows, k) != []
      {
        OfSubSportSnoc(init, last, k);
      }
    }
  }

  /** One group's rollup. */
  function Rollup(subSport: string, group: seq<SessionRow>): Summary {
    Summary(Some(subSport), RowTotals(group).distance, RowTotals(group).time, |group|)
  }

  /** One rollup per key, in key order. */
  function RollupAll(rows: seq<SessionRow>, keys: seq<string>): (r: seq<Summary>)
    ensures |r| == |keys|
  {
    if keys == [] then []
    else [Rollup(keys[0], OfSubSport(rows, keys[0]))] + RollupAll(rows, keys[1..])
  }

  lemma {:induction false} RollupAllAt(rows: seq<SessionRow>, keys: seq<string>, i: int)
    requires 0 <= i < |keys|
    ensures RollupAll(rows, keys)[i] == Rollup(keys[i], OfSubSport(rows, keys[i]))
  {
    if i > 0 {
      RollupAllAt(rows, keys[1..], i - 1);
    }
  }

  /**
   * `get_detailed_summary`: one rollup per distinct sub-sport (`group by
   * sub_sport`); the year is not used.
   */
  function GetDetailedSummary(rows: seq<SessionRow>, year: int): (r: seq<Summary>)
    ensures |r| == |SubSports(rows)|
  {
    RollupAll(rows, SubSports(rows))
  }

  /**
   * Each detailed rollup is labelled with its own sub-sport, no sub-sport
   * appears twice, every session's sub-sport has a rollup, and each rollup
   * counts and sums exactly the (non-empty) group of sessions of its sub-sport.
   */
  lemma DetailedSummaryGroups(rows: seq<SessionRow>, year: int)
    ensures forall i :: 0 <= i < |GetDetailedSummary(rows, year)| ==>
              GetDetailedSummary(rows, year)[i].subSport.Some?
    ensures forall i, j :: 0 <= i < j < |GetDetailedSummary(rows, year)| ==>
              GetDetailedSummary(rows, year)[i].subSport != GetDetailedSummary(rows, year)[j].subSport
    ensures forall x :: x in rows ==>
              exists i :: 0 <= i < |GetDetailedSummary(rows, year)| &&
                          GetDetailedSummary(rows, year)[i].subSport == Some(x.subSport)
    ensures forall i :: 0 <= i < |GetDetailedSummary(rows, year)| ==>
              GetDetailedSummary(rows, year)[i] ==
              Rollup(GetDetailedSummary(rows, year)[i].subSport.value,
                     OfSubSport(rows, GetDetailedSummary(rows, year)[i].subSport.value))
    ensures forall i :: 0 <= i < |GetDetailedSummary(rows, year)| ==>
              OfSubSport(rows, GetDetailedSummary(rows, year)[i].subSport.value) != []
  {
    var keys := SubSports(rows);
    var r := GetDetailedSummary(rows, year);
    SubSportsExact(rows);
    forall i | 0 <= i < |r|
      ensures r[i] == Rollup(keys[i], OfSubSport(rows, keys[i]))
    {
      RollupAllAt(rows, keys, i);
    }
    forall x | x in rows
      ensures exists i :: 0 <= i < |r| && r[i].subSport == Some(x.subSport)
    {
      var i :| 0 <= i < |keys| && keys[i] == x.subSport;
      assert r[i].subSport == Some(x.subSport);
    }
  }

  /** Adds up the totals of a list of rollups. */
  function SummaryTotals(groups: seq<Summary>): Totals {
    if groups == [] then NoTotals
    else Plus(Totals(groups[0].totalDistance, groups[0].totalTime, groups[0].ridesCount),
              SummaryTotals(groups[1..]))
  }

  lemma {:induction false} RollupAllOfNothing(keys: seq<string>)
    ensures SummaryTotals(RollupAll([], keys)) == NoTotals
  {
    if keys != [] {
      RollupAllOfNothing(keys[1..]);
      assert RollupAll([], keys)[1..] == RollupAll([], keys[1..]);
    }
  }

  lemma RollupAllCons(rows: seq<SessionRow>, keys: seq<string>)
    requires keys != []
    ensures SummaryTotals(RollupAll(rows, keys)) ==
            Plus(RowTotals(OfSubSport(rows, keys[0])), SummaryTotals(RollupAll(rows, keys[1..])))
  {
    var a := RollupAll(rows, keys);
    assert a[1..] == RollupAll(rows, keys[1..]);
  }

  lemma PlusSwap(a: Totals, b: Totals, c: Totals)
    ensures Plus(Plus(a, c), b) == Plus(Plus(a, b), c)
    ensures Plus(a, Plus(b, c)) == Plus(Plus(a, b), c)
  {
  }

  /** Appending one row adds its figures to its own sub-sport's group and leaves the other groups alone. */
  lemma GroupTotalsStep(rows: seq<SessionRow>, x: SessionRow, k: string)
    ensures RowTotals(OfSubSport(rows + [x], k)) ==
            if x.subSport == k
            then Plus(RowTotals(OfSubSport(rows, k)), Totals(x.totalDistance, x.totalMovingTime, 1))
            else RowTotals(OfSubSport(rows, k))
  {
    OfSubSportSnoc(rows, x, k);
    if x.subSport == k {
      RowTotalsSnoc(OfSubSport(rows, k), x);
    }
  }

  /**
   * Appending one row to the table adds that row's figures once to the
   * rollups' totals when its sub-sport is among the (distinct) keys.
   */
  lemma {:induction false} RollupAllStep(rows: seq<SessionRow>, x: SessionRow, keys: seq<string>)
    requires forall i, j :: 0 <= i < j < |keys| ==> keys[i] != keys[j]
    ensures SummaryTotals(RollupAll(rows + [x], keys)) ==
            if x.subSport in keys
            then Plus(SummaryTotals(RollupAll(rows, keys)), Totals(x.totalDistance, x.totalMovingTime, 1))
            else SummaryTotals(RollupAll(rows, keys))
  {
    if keys != [] {
      var tail := keys[1..];
      assert forall i, j :: 0 <= i < j < |tail| ==> tail[i] != tail[j] by {
        forall i, j | 0 <= i < j < |tail| ensures tail[i] != tail[j] {
          assert tail[i] == keys[i + 1] && tail[j] == keys[j + 1];
        }
      }
      RollupAllStep(rows, x, tail);
      assert x.subSport in keys <==> x.subSport == keys[0] || x.subSport in tail;
      if x.subSport == keys[0] {
        assert x.subSport !in tail;
      }
      RollupAllCons(rows + [x], keys);
      RollupAllCons(rows, keys);
      GroupTotalsStep(rows, x, keys[0]);
      var xt := Totals(x.totalDistance, x.totalMovingTime, 1);
      var g := RowTotals(OfSubSport(rows, keys[0]));
      var rest := SummaryTotals(RollupAll(rows, tail));
      if x.subSport in keys {
        PlusSwap(g, rest, xt);
      }
    }
  }

  /**
   * With distinct keys that cover every row's sub-sport, the rollups'
   * distances, moving times and counts add up to those of the whole table.
   */
  lemma {:induction false} RollupAllPartitions(rows: seq<SessionRow>, keys: seq<string>)
    requires forall i, j :: 0 <= i < j < |keys| ==> keys[i] != keys[j]
    requires forall x :: x in rows ==> x.subSport in keys
    ensures SummaryTotals(RollupAll(rows, keys)) == RowTotals(rows)
  {
    if rows == [] {
      RollupAllOfNothing(keys);
    } else {
      var init, x := rows[..|rows| - 1], rows[|rows| - 1];
      assert rows == init + [x];
      RollupAllPartitions(init, keys);
      RollupAllStep(init, x, keys);
    }
  }

  /**
   * The detailed rollups' counts, distances and moving times add up to the
   * overall rollup's figures.
   */
  lemma DetailedSumsToOverall(rows: seq<SessionRow>, year: int)
    ensures SummaryTotals(GetDetailedSummary(rows, year)) ==
            Totals(GetOverallSummary(rows, year).totalDistance, GetOverallSummary(rows, year).totalTime,
                   GetOverallSummary(rows, year).ridesCount)
  {
    SubSportsExact(rows);
    RollupAllPartitions(rows, SubSports(rows));
  }
}
