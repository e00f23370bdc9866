/** The records exchanged between the dashboard, the language-model parser and
    the datastore (types.ts), and the errors that can cross those boundaries. */
module Types {
  import opened Wrappers

  /** Direction of the 24-hour change; stored as 'RISING', 'FALLING' or 'STABLE'. */
  datatype Trend = Rising | Falling | Stable

  /** One reading as stored in the `water_levels` table. `id` and `createdAt`
      are assigned by the database; `createdAt` is a millisecond timestamp
      standing for the ISO-8601 `created_at` string. */
  datatype WaterRecord = WaterRecord(
    id: Option<int>,
    createdAt: Option<int>,
    waterLevel: real,
    change24h: real,
    trend: Trend)

  /** The two numbers the language model extracts from the scraped text. */
  datatype ExtractedWaterData = ExtractedWaterData(waterLevel: real, change24h: real)

  /** An error object returned by the datastore client: a Postgres error code
      and a human-readable message. */
  datatype StoreError = StoreError(code: string, message: string)

  /** What a `catch` block receives: either an `Error` raised with a message
      by the code itself, or a datastore error rethrown unchanged. */
  datatype Fault = Raised(text: string) | Rethrown(cause: StoreError) {

    /** The `.message` property the dashboard reads from the caught value. */
    function Message(): string {
      match this
      case Raised(t) => t
      case Rethrown(e) => e.message
    }
  }
}
