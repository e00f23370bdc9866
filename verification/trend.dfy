/** Step 3 of a refresh (App.tsx): the trend is derived from the sign of the
    24-hour change, and the new record is assembled from the parser's output. */
module TrendLogic {
  import opened Wrappers
  import opened Types

  /** The trend a change of `change` stands for; zero is stable. */
  function ClassifyTrend(change: real): (t: Trend)
    ensures t == Rising <==> change > 0.0
    ensures t == Falling <==> change < 0.0
    ensures t == Stable <==> change == 0.0
  {
    if change > 0.0 then Rising
    else if change < 0.0 then Falling
    else Stable
  }

  /** A record's stored trend agrees with the sign of its stored change. */
  predicate TrendConsistent(r: WaterRecord) {
    (r.trend == Rising <==> r.change24h > 0.0)
    && (r.trend == Falling <==> r.change24h < 0.0)
    && (r.trend == Stable <==> r.change24h == 0.0)
  }

  /** The record handed to the datastore: the parsed numbers copied unchanged,
      the derived trend, and no `id` or `created_at`, which the database assigns. */
  function AssembleRecord(x: ExtractedWaterData): (r: WaterRecord)
    ensures r.waterLevel == x.waterLevel && r.change24h == x.change24h
    ensures r.id.None? && r.createdAt.None?
    ensures TrendConsistent(r)
  {
    WaterRecord(None, None, x.waterLevel, x.change24h, ClassifyTrend(x.change24h))
  }

  /** Any record whose trend agrees with its change carries exactly the trend
      the classifier would give it, so the trend never needs to be stored
      independently. */
  lemma ConsistentTrendIsClassified(r: WaterRecord)
    ensures TrendConsistent(r) <==> r.trend == ClassifyTrend(r.change24h)
  {
  }
}
