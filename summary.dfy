/**
 * Rollup summaries (src/summary.rs): the value type the store's summary
 * queries produce, and the two fallbacks that turn a failed query into an
 * empty or zero summary.
 *
 * The source calls the store directly; here the store's outcome is a
 * parameter, which keeps this module below the store in the import order.
 */
module Summaries {
  import opened Wrappers

  /** A rollup: optional sub-sport (None = overall), summed distance and moving time, ride count. */
  datatype Summary = Summary(
    subSport: Option<string>,
    totalDistance: real,
    totalTime: real,
    ridesCount: int)

  /** The error a store query reports (connection or statement failure). */
  datatype StoreError = StoreUnavailable

  /** `Summary::new`: an empty rollup for one sub-sport. */
  function New(subSport: string): (s: Summary)
    ensures s.subSport == Some(subSport)
    ensures s.totalDistance == 0.0 && s.totalTime == 0.0 && s.ridesCount == 0
  {
    Summary(Some(subSport), 0.0, 0.0, 0)
  }

  /** The rollup `overall` falls back to: no sub-sport and zero totals. */
  const ZeroOverall: Summary := Summary(None, 0.0, 0.0, 0)

  /**
   * `Summary::detailed`: the store's per-sub-sport rollups when the query
   * succeeds, no rollups otherwise; never an error.
   */
  function Detailed(year: int, fromStore: Result<seq<Summary>, StoreError>): (r: Result<seq<Summary>, StoreError>)
    ensures r.Success?
    ensures fromStore.Success? ==> r == fromStore
    ensures fromStore.Failure? ==> r.value == []
  {
    if fromStore.Success? then fromStore else Success([])
  }

  /**
   * `Summary::overall`: the store's overall rollup when the query succeeds,
   * a zero rollup without sub-sport otherwise; never an error.
   */
  function Overall(year: int, fromStore: Result<Summary, StoreError>): (r: Result<Summary, StoreError>)
    ensures r.Success?
    ensures fromStore.Success? ==> r == fromStore
    ensures fromStore.Failure? ==>
              r.value.subSport.None? && r.value.totalDistance == 0.0 &&
              r.value.totalTime == 0.0 && r.value.ridesCount == 0
  {
    if fromStore.Success? then fromStore else Success(ZeroOverall)
  }

  /** The fallbacks ignore the year they are given. */
  lemma FallbacksIgnoreYear(y1: int, y2: int, d: Result<seq<Summary>, StoreError>, o: Result<Summary, StoreError>)
    ensures Detailed(y1, d) == Detailed(y2, d)
    ensures Overall(y1, o) == Overall(y2, o)
  {
  }
}
