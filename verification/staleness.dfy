/** The auto-refresh decision loadData makes after reading the latest record (App.tsx). */
module Staleness {
  import opened Wrappers
  import opened Types

  /** Twenty-four hours in milliseconds: 86 400 000. */
  const DayMs: int := 24 * 60 * 60 * 1000

  /** A refresh is requested when there is no record at all, or when the latest
      record has a timestamp more than a day before `now`. A latest record
      without a timestamp never requests one. */
  function NeedsAutoRefresh(latest: Option<WaterRecord>, now: int): (r: bool)
    ensures latest.None? ==> r
    ensures latest.Some? && latest.value.createdAt.None? ==> !r
    ensures latest.Some? && latest.value.createdAt.Some? ==>
      (r <==> now - latest.value.createdAt.value > DayMs)
  {
    match latest
    case None => true
    case Some(rec) =>
      match rec.createdAt
      case None => false
      case Some(t) => now - t > DayMs
  }

  /** Staleness persists: a record stale at `now` is still stale later. */
  lemma StaleStaysStale(latest: Option<WaterRecord>, now: int, later: int)
    requires now <= later && NeedsAutoRefresh(latest, now)
    ensures NeedsAutoRefresh(latest, later)
  {
  }

  /** The threshold is strict: exactly one day old is fresh, one millisecond
      more is stale. */
  lemma OneDayBoundary(rec: WaterRecord, t: int)
    requires rec.createdAt == Some(t)
    ensures !NeedsAutoRefresh(Some(rec), t + DayMs)
    ensures NeedsAutoRefresh(Some(rec), t + DayMs + 1)
  {
  }
}
