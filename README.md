# fit-reader core, modelled in Dafny

fit-reader is a terminal tool that reads cycling FIT exports. It turns each
file's decoded messages into a `Session` with its `Lap`s and `Record`s and
stores them in SQLite. It refuses a session whose time interval meets one
already stored. From the stored sessions it builds chart series and
distance/time summaries. This project models that core and proves what it
promises.

- `wrappers.dfy`: `Option` and `Result`, usable with `:-`.
- `parser.dfy` (module `Parser`, src/parser.rs): field names and their display text; a message as a tagged bag of `(name, value)` fields; the filter-then-find extraction of a session, a lap and a record; the assembly of a session from the message stream.
  - Every `unwrap`/`expect` panic of the source is a `Failure` with a `ParseError`.
  - `Value::try_into` is a partial conversion over a small `Value` type.
- `summary.dfy` (module `Summaries`, src/summary.rs): the `Summary` rollup and the two fallbacks that turn a failed store query into an empty or zero answer.
  - The store's outcome is a parameter, which keeps this module below the store.
- `db.dfy` (module `Db`, src/db.rs): the three tables as sequence fields of a `Store` class.
  - The overlap guard, the insert with its lap and record loops, the read-back queries, and the overall and per-sub-sport summaries.
  - The queries are functions of the table contents.
- `chart_series.dfy` (module `ChartSeries`): the point type and the minimum-heart-rate and maximum-power reductions that all three chart builders use.
- `app.dfy` (module `Application`, src/app.rs): the `App` state class and the builder that fills three fixed 999-slot arrays in place (its loop is the helper method `FillSeries`).
- `ui_util.dfy` (module `SessionChart`, src/ui/util.rs): the builder that pushes onto growable series.
- `ui_lib.dfy` (module `RecordsChart`, src/ui/lib.rs): the builder that fills two fixed 200-slot series from the latest session.
- `util.dfy` (module `Navigation`, src/util.rs): the wrap-around cursor over the session list.

Modelling choices:

- f64 distances and times are `real`, with no rounding.
- Integer fields are unbounded `int`s. Conversions from a field value check the i64 range.
- Chart coordinates are integers, since every plotted value is an integer cast to a float.
- Start times compare as integers.
- A new row's id is one more than the largest id in its table, or 1 in an empty table, as SQLite assigns rowids to an `integer primary key`.
- A `where session_id = ?` query returns its rows in rowid order.
- `group by sub_sport` is modelled with groups in order of first appearance. SQL fixes no order, and every property proved holds for any order.

Behaviour of the code that the model keeps, though a more forgiving importer might differ:

- A missing `serial_number`, or no file-id message at all, fails the whole assembly. It does not default to zero (src/parser.rs:350-372).
- A lap or record message that fails extraction fails the whole assembly. It is not skipped (src/parser.rs:319-348).
- Only every second record message is kept (src/parser.rs:338-341).
- The insert is not atomic: see "Left out".

## Model

| member | source | states |
|---|---|---|
| Parser.Name | src/parser.rs:66-86 | the `Display` text of each field name, one fixed snake-case string per name; FieldNamed inverts it and NameRoundTrip and NameInjective prove it one-to-one |
| Parser.FieldNamed | src/parser.rs:66-86 | reading a display text back gives a field name whose text is that string (the partner of the `Display` impl) |
| Parser.NameRoundTrip | src/parser.rs:66-86 | every field name's display text reads back as that same name |
| Parser.NameInjective | src/parser.rs:66-86 | two field names display as the same text exactly when they are the same name (e.g. the misspelt `TotalDistace` shows as "total_distance", distinct from "distance") |
| Parser.Keep | src/parser.rs:119-130 | the filter keeps only fields of the input whose name is one of the recognised names, and never grows the bag |
| Parser.Find | src/parser.rs:132-170 | the `find` by name: a value it returns is the value of a field of the bag with that name |
| Parser.FindFirstMatch | src/parser.rs:132-170 | a lookup finds nothing exactly when no field has that name; otherwise it returns the value of the first field with that name |
| Parser.FindAfterKeep | src/parser.rs:119-170 | after the filter, a lookup of a recognised name finds what it would have found in the whole bag, and a lookup of any other name finds nothing |
| Parser.FindSessionValues | src/parser.rs:132-170 | the ten finds of a session succeed exactly when all ten names are present, yield each name's first value, and on failure report a missing recognised field that is absent |
| Parser.ConvertSession | src/parser.rs:172-187 | the session literal succeeds exactly when all eight numeric conversions succeed; it has id None, serial number 0, no laps and no records, and each field is its converted value |
| Parser.SessionFromFields | src/parser.rs:117-189 | a session message builds exactly when all ten fields are present and convertible; each field of the result is the converted first value of that name in the message, with id None, serial 0, no laps and no records |
| Parser.FindSessionValuesMissing | src/parser.rs:132-170 | the ten finds of a session fail as soon as any one of the ten names is absent |
| Parser.SessionMissingField | src/parser.rs:132-170 | a session message lacking any of its ten fields fails with a missing-field error naming one of the ten that is absent |
| Parser.FindLapValues | src/parser.rs:201-219 | the five finds of a lap succeed exactly when all five names are present, yield each first value, and on failure name an absent lap field |
| Parser.ConvertLap | src/parser.rs:221-228 | the lap literal succeeds exactly when all five conversions succeed, with id None and each field its converted value |
| Parser.LapFromFields | src/parser.rs:191-230 | a lap message builds exactly when all five fields are present and convertible, each lap field being the first such value in the message |
| Parser.FindLapValuesMissing | src/parser.rs:201-219 | the five finds of a lap fail as soon as any one of the five names is absent |
| Parser.LapMissingField | src/parser.rs:201-219 | a lap message lacking any of its five fields fails with a missing-field error naming an absent lap field |
| Parser.RecordFromFields | src/parser.rs:232-281 | a record builds exactly when the timestamp is present and converts and each optional field is absent or converts; absent power, distance or heart rate become 0; a missing timestamp fails |
| Parser.OfKind | src/parser.rs:320-322 | the kind filter keeps exactly the messages of that kind; a single message is kept exactly when it has the kind |
| Parser.OfKindAppend | src/parser.rs:320-322 | filtering a concatenation filters each part, so (with the one-message case) the filter keeps the kind's messages in stream order and with their multiplicity |
| Parser.OddPositions | src/parser.rs:338-341 | `skip(1).step_by(2)` keeps ⌊n/2⌋ elements, the i-th being element 2i+1 |
| Parser.ConvertAll | src/parser.rs:318-348 | converting a list of messages, on success, gives one result per message |
| Parser.ConvertAllEach | src/parser.rs:318-348 | converting a list of messages succeeds exactly when every message converts, and the i-th result is the i-th message's conversion |
| Parser.GetLapsData | src/parser.rs:319-331 | one lap per lap message |
| Parser.GetLapsDataInOrder | src/parser.rs:319-331 | the i-th lap is built from the i-th lap message, so lap order is the stream order |
| Parser.GetRecordData | src/parser.rs:333-348 | n record messages give ⌊n/2⌋ records |
| Parser.GetRecordDataInOrder | src/parser.rs:333-348 | the i-th record is built from record message 2i+1 |
| Parser.SerialNumbers | src/parser.rs:355-364 | collecting serial numbers succeeds exactly when every file-id message has a `serial_number` field, giving each message's first such value in order |
| Parser.GetFileSerialNum | src/parser.rs:350-372 | with no file-id message it fails; GetFileSerialNumSucceeds gives the exact success condition; on success the result is the converted `serial_number` of the first file-id message |
| Parser.GetSessionData | src/parser.rs:301-317 | with no session message it fails with NoSessionMessage; a lap or record message that fails extraction fails the whole assembly; on success the serial number comes from the first file-id message, and the laps and records are exactly GetLapsData's and GetRecordData's results (one lap per lap message in stream order, ⌊n/2⌋ records) |
| Parser.GetFileSerialNumSucceeds | src/parser.rs:350-372 | the serial number is found exactly when there is a file-id message, every file-id message has `serial_number` and the first one converts to an i64; a file-id message without `serial_number`, at any position, fails with MissingField(SerialNumber) |
| Parser.SerialNumbersMissing | src/parser.rs:355-364 | any file-id message without `serial_number` makes the per-message search fail, naming that field |
| Parser.GetSessionDataSucceeds | src/parser.rs:301-317 | a stream assembles exactly when its first session message, its serial number, its laps and its records all extract, and the session is then the first session message's with those three attached |
| Parser.GetSessionDataFromFirstSession | src/parser.rs:301-317 | apart from serial number, laps and records, the assembled session is the one built from the first session message |
| Parser.IsFitFile | src/parser.rs:374-380 | true exactly when the path is some stem followed by ".fit" |
| Summaries.New | src/summary.rs:14-21 | a new rollup has Some(sub-sport), zero distance, zero time and zero rides |
| Summaries.Detailed | src/summary.rs:23-30 | never an error; the store's answer when it succeeded, no rollups when it failed |
| Summaries.Overall | src/summary.rs:32-45 | never an error; the store's answer when it succeeded, a zero rollup without sub-sport when it failed |
| Summaries.FallbacksIgnoreYear | src/summary.rs:23-45 | the year given to either fallback has no effect on the answer |
| Db.HitsIsIntersection | src/db.rs:471-472 | for well-formed intervals the guard's `between`/containment test holds exactly when the two closed intervals intersect, touching endpoints included |
| Db.HitsSymmetric | src/db.rs:471-472 | for well-formed intervals the guard's test does not depend on which interval is the candidate |
| Db.Hits | src/db.rs:471-472 | the `where` clause of the guard: either end of the candidate lies in the stored interval, or the candidate covers it (HitsIsIntersection proves this is closed-interval intersection) |
| Db.CandidateEnd | src/db.rs:465 | the candidate's end, its start plus its elapsed time parsed as an integer, equals start + elapsed exactly for a whole elapsed time |
| Db.SessionExists | src/db.rs:462-482 | true exactly when some stored session's interval [start, start+elapsed] meets the candidate's [start, start+elapsed as an integer] |
| Db.SessionExistsAfterAppend | src/db.rs:462-482 | storing one more session adds exactly that session's interval to what the guard checks |
| Db.NoOverlapDisjoint | src/db.rs:68-71 | in a store built through the guard, with non-negative elapsed times, any two stored sessions' closed intervals are disjoint |
| Db.DisjointSessionsBothInsert | src/db.rs:68-71 | two sessions with disjoint intervals, each admitted on its own, are both admitted in either order |
| Db.StartInsideIsRefused | src/db.rs:68-71 | a session starting within a stored session's interval is refused |
| Db.OverlapExamples | src/db.rs:462-482 | with a ride stored from 1000 lasting 3600, a ride from 4700 lasting 600 is admitted and one from 3000 lasting 100 is refused |
| Db.NextSessionId | src/db.rs:104 | `last_insert_rowid` after the session insert: one above the last id, 1 for an empty table; NextSessionIdFresh states its freshness |
| Db.NextLapId | src/db.rs:106-123 | the rowid a lap insert receives: one above the last lap id, 1 for an empty table; LapsValidSnoc states that it keeps ids ascending |
| Db.NextRecordId | src/db.rs:125-140 | the rowid a record insert receives: one above the last record id, 1 for an empty table; RecordsValidSnoc states that it keeps ids ascending |
| Db.SessionRowOf | src/db.rs:88-98 | the row the session insert binds keeps the id and reads back, with the session's laps and records, as the session under that id |
| Db.LapRowOf | src/db.rs:117-122 | the lap row is tagged with the session id and reads back as the lap under its row id |
| Db.RecordRowOf | src/db.rs:135-139 | the record row is tagged with the session id and reads back as the record under its row id |
| Db.SessionOf | src/db.rs:227-242 | the session literal of the read-back, id from the row, laps and records from the child queries; SessionRowOf is its inverse |
| Db.LapOf | src/db.rs:296-303 | the lap literal of the read-back, the `distance` column becoming `total_distance`; LapRowOf is its inverse |
| Db.RecordOf | src/db.rs:351-357 | the record literal of the read-back; RecordRowOf is its inverse |
| Db.NextSessionIdFresh | src/db.rs:104 | with ascending ids, the id the next insert receives is at least 1 and larger than every id in use |
| Db.Store.constructor | src/db.rs:19-66 | a new store has three empty tables and satisfies the store invariant |
| Db.Store.InsertSession | src/db.rs:68-143 | keeps the store invariant; on overlap it fails and no table changes; otherwise it returns the next id, and appends one session row, then one lap row per lap and one record row per record, in order, all tagged with that id |
| Db.Store.AppendSession | src/db.rs:75-104 | appends the session's row under the next id and keeps the no-overlap invariant |
| Db.LapsValidSnoc | src/db.rs:106-123 | appending a lap row under the next id, tagged with an issued session id, keeps lap ids ascending and every lap's session issued, and advances the next lap id by one |
| Db.RecordsValidSnoc | src/db.rs:125-140 | the same for a record row appended under the next record id |
| Db.Store.AppendLaps | src/db.rs:106-123 | appends one row per lap, in order, under consecutive fresh ids, all tagged with the session id, leaving the other tables alone |
| Db.Store.AppendRecords | src/db.rs:125-140 | appends one row per record, in order, under consecutive fresh ids, all tagged with the session id, leaving the other tables alone |
| Db.LapsBySessionId | src/db.rs:252-311 | the laps of the rows tagged with the session id, in row order; LapsBySessionIdTagged, LapsBySessionIdAppend, LapsBySessionIdAbsent and LapRowsReadBack state its properties |
| Db.RecordsBySessionId | src/db.rs:313-370 | the records of the rows tagged with the session id, in row order; RecordsBySessionIdTagged, RecordsBySessionIdAppend, RecordsBySessionIdAbsent and RecordRowsReadBack state its properties |
| Db.LapsBySessionIdTagged | src/db.rs:252-263 | every lap read back for an id is the reading of a lap row tagged with that id |
| Db.RecordsBySessionIdTagged | src/db.rs:313-323 | every record read back for an id is the reading of a record row tagged with that id |
| Db.LapsBySessionIdAppend | src/db.rs:252-263 | reading laps by session id distributes over a split of the table |
| Db.RecordsBySessionIdAppend | src/db.rs:313-323 | reading records by session id distributes over a split of the table |
| Db.LapsBySessionIdAbsent | src/db.rs:252-263 | a table with no row for a session id yields no laps for it |
| Db.RecordsBySessionIdAbsent | src/db.rs:313-323 | a table with no row for a session id yields no records for it |
| Db.LapRowsReadBack | src/db.rs:106-123 | the lap rows an insert writes read back as the same laps, in order, each with its new row id |
| Db.RecordRowsReadBack | src/db.rs:125-140 | the record rows an insert writes read back as the same records, in order, each with its new row id |
| Db.InsertedLapsRoundTrip | src/db.rs:104-123 | after an insert under a fresh id, reading that id's laps returns the session's own laps, same count, same values, original order, each with its row id |
| Db.InsertedRecordsRoundTrip | src/db.rs:125-142 | after an insert under a fresh id, reading that id's records returns the session's own records, same count, same values, original order, each with its row id |
| Db.InsertByStartSorted | src/db.rs:161 | inserting into a list sorted latest first keeps it sorted, and its head is the new row or the old head |
| Db.InsertByStartPermutes | src/db.rs:161 | inserting adds exactly the new row to the multiset of rows and drops none |
| Db.SortByStartDesc | src/db.rs:161 | `order by start_time desc` as an insertion sort: the same number of rows; SortByStartDescSorted proves it a permutation, latest first |
| Db.SortByStartDescSorted | src/db.rs:161 | `order by start_time desc` yields a permutation of the rows, latest first |
| Db.AttachChildrenAt | src/db.rs:224-242 | the i-th session read back is the i-th row with the laps and records stored under its id |
| Db.GetAllSessions | src/db.rs:145-250 | one session read back per stored session row, with the laps and records stored under its id |
| Db.GetAllSessionsLatestFirst | src/db.rs:145-250 | all sessions come back, one per row, ordered by start time descending, each with its own laps and records, and nothing else comes back |
| Db.RowTotals | src/db.rs:376-379 | the count of a set of rows is its size |
| Db.GetOverallSummary | src/db.rs:372-414 | the overall rollup has no sub-sport, counts every session and sums distance and moving time; the year is not used |
| Db.OfSubSport | src/db.rs:419-424 | one `group by sub_sport` group: the rows of that sub-sport, and no others |
| Db.SubSports | src/db.rs:419-424 | the group keys of `group by sub_sport`, in first-seen order; SubSportsExact states that they are distinct and cover exactly the stored sub-sports |
| Db.OfSubSportNonEmpty | src/db.rs:420-424 | a stored session's sub-sport always has a non-empty group |
| Db.SubSportsExact | src/db.rs:420-424 | the group keys are distinct, include every session's sub-sport, and each has at least one session |
| Db.RollupAllAt | src/db.rs:420-453 | the i-th rollup sums and counts exactly the group of the i-th key |
| Db.GetDetailedSummary | src/db.rs:416-460 | one rollup per distinct sub-sport of the stored sessions |
| Db.DetailedSummaryGroups | src/db.rs:416-460 | one rollup per distinct sub-sport, each labelled Some(sub-sport), none repeated, every session's sub-sport present, each summing and counting exactly its non-empty group |
| Db.GroupTotalsStep | src/db.rs:420-453 | storing one more session adds its distance, moving time and a count of one to its own sub-sport's group and leaves every other group's totals alone |
| Db.RollupAllStep | src/db.rs:420-453 | storing one more session adds its figures exactly once to the rollups' totals when its sub-sport is among the distinct keys, and not at all otherwise |
| Db.RollupAllPartitions | src/db.rs:416-460 | for distinct keys covering every row, the rollups' distances, times and counts add up to the whole table's |
| Db.DetailedSumsToOverall | src/db.rs:372-460 | the detailed rollups' counts, distances and moving times add up to the overall rollup's |
| ChartSeries.MinHeartRate | src/app.rs:90-96 | the result is at most every record's heart rate and equals one of them |
| ChartSeries.MaxPower | src/app.rs:98-104 | the result is at least every record's power and equals one of them |
| Application.App.constructor | src/app.rs:48-63 | a new app has no latest session, no sessions and nothing selected |
| Application.App.SelectSession | src/app.rs:65-67 | sets the selected session and changes nothing else |
| Application.FillSeries | src/app.rs:80-88 | the three arrays of 999 origin slots come out with slot i < n holding (60·i, power), (60·i, heart rate) and (60·i, threshold power) of record i, and every later slot still (0, 0) |
| Application.App.BuildSessionDataset | src/app.rs:77-110 | all three series have 999 slots; slot i < n holds (60·i, power), (60·i, heart rate) and (60·i, threshold power); later slots stay (0, 0); min is the least heart rate, max the greatest power, and max x is the last timestamp minus the first |
| SessionChart.BuildSessionDataset | src/ui/util.rs:32-63 | fails exactly when the session has no records; otherwise each series has one point per record, point i = (i, power), (i, heart rate) and (i, threshold power), max x is the number of points, min the least heart rate and max the greatest power |
| SessionChart.SeriesWithinRange | src/ui/util.rs:37-57 | in such a chart x strictly increases along each series, no heart-rate point lies below min y and no power point above max y |
| RecordsChart.BuildSessionRecordsDataset | src/ui/lib.rs:24-53 | both series have 200 slots; slot i < n holds (60·i, power) and (60·i, heart rate) of the latest session's record i; later slots stay (0, 0); min is the least heart rate and max the greatest power |
| RecordsChart.MinuteStepsIncrease | src/ui/lib.rs:30-33 | over the filled prefix x strictly increases, in steps of 60 |
| Navigation.NextIndex | src/util.rs:7-10 | inside the list, the index after a move down is index + 1 modulo the list length |
| Navigation.PrevIndex | src/util.rs:20-23 | inside the list, the index after a move up is index − 1 modulo the list length |
| Navigation.MovesStayInRange | src/util.rs:3-27 | from an index inside the list both moves land inside the list |
| Navigation.MovesUndoEachOther | src/util.rs:3-27 | inside the list, down then up and up then down both restore the index |
| Navigation.MoveDownRound | src/util.rs:3-14 | up to one full round, moving down t times advances the index by t, wrapping once; after `len` moves it is back at its start |
| Navigation.App.SelectSession | src/util.rs:13 | selecting by index picks the session at that index, or none past the end, and changes nothing else |
| Navigation.App.MoveDownEvent | src/util.rs:3-14 | the index becomes index+1, or 0 when that equals the number of sessions, and the session at the new index is selected |
| Navigation.App.MoveUpEvent | src/util.rs:16-27 | the index becomes index−1, or the last index when it was 0, and the session at the new index is selected |

## Left out

- FIT decoding, file opening and the console output of `init` (src/parser.rs:283-299) are I/O through a foreign library. The messages arrive as a parameter.
- `Value::try_into` belongs to the decoding library. It is modelled as `AsI64`/`AsF64` over four value shapes: integers and timestamps convert to i64 when in range, every numeric value converts to f64, texts convert to neither.
- Parser.Render: a field's display text is modelled only for text values. Any other value renders as the empty string, since the library's formatting of numbers is not part of this model.
- SQLite plumbing is not modelled: opening the connection, the table DDL of `create`, column decoding with per-column defaults, and the number-to-text conversions of the inserted values. The `Store` holds typed rows instead.
- Db.Store.InsertSession models every write as succeeding. The source's writes are not atomic: a failed lap or record insert leaves the session row behind. A failed session insert (src/db.rs:100-102) is not modelled either.
- Db.SessionExists requires the elapsed time to be a whole number. The source parses its decimal text as an i64 and panics otherwise (src/db.rs:465). An i64 overflow of that end time is not modelled either.
- `start_time` is a TEXT column, so SQLite compares it as text. The model compares integers, which agree with text comparison for epoch times of equal width.
- Db.GetAllSessions, Db.GetAllSessionsLatestFirst: the session id is read as an i16 (src/db.rs:164), and an id above 32767 reads as 0. Lines 224-225 then fetch laps and records under id 0, so such a session comes back with no laps or records. The model reads the full id, so each session comes back with its own laps and records.
- Db.LapsBySessionId, Db.RecordsBySessionId, Db.InsertedLapsRoundTrip, Db.InsertedRecordsRoundTrip: lap and record ids are read as i16 (src/db.rs:266, 326), and an id above 32767 reads as 0. Record ids pass that bound after a few dozen rides, so the source then returns those records with id 0 rather than their row id. The model returns the full row id.
- Db.GetAllSessions does not model the `unwrap` of the start-time text parse. The model stores start times as integers.
- The year argument of the summary queries is accepted and ignored, as in the source. No calendar filtering is modelled.
- Db.GetDetailedSummary picks groups in order of first appearance. SQL leaves this order unspecified, and the proved properties do not depend on it.
- The date and duration text helpers use chrono and float formatting, so they are not modelled: the `Session` methods `to_string`, `moving_time_as_string`, `distance_as_string` and `timestamp_as_string` (src/parser.rs:89-114), and the free functions `sessio_to_string` (src/ui/util.rs:65-72), `moving_time_to_hour_minute_string`, `timestamp_as_string` and `distance_as_string` (src/ui/util.rs:74-90).
- The chart builders do not model f64 rounding. Every plotted value is an integer of at most 64 bits cast to f64, which is exact only up to 2^53.
- The `todo!()` stubs `get_summary_by_session_type` and `get_current_year_summary` (src/app.rs:69-75) have no behaviour to model.
- The `SessionType` enum and `Summary` struct of src/app.rs are not modelled. `Summary` is never used. `SessionType` only types the parameter of the `todo!()` stub `get_summary_by_session_type` (src/app.rs:69).
- The terminal drawing in src/ui/mod.rs and src/ui.rs and the entry point src/main.rs are not part of this model. Its `is_fit_file` duplicates the one in src/parser.rs.
- Navigation.App.SelectSession: the index-taking `select_session(usize)` and `selected_session_index` that src/util.rs uses are not defined in src/app.rs, which comes from an earlier revision than src/util.rs. The model assumes selecting an index picks the session at that index, or none past the end.
- Navigation.App.MoveUpEvent requires a non-empty list when the index is 0. There, `len - 1` underflows (src/util.rs:22).
- Both moves require a selected index, because the source's `unwrap` panics without one (src/util.rs:5, 18).
- Application.App.BuildSessionDataset requires a selected session with 1 to 999 records, and RecordsChart.BuildSessionRecordsDataset a latest session with 1 to 200 records. Outside those ranges the source panics on `unwrap` or indexes past its fixed arrays.
