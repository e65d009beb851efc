/** Calendar days and the two clock readings a run takes. */
module Watermarks {

  /** A calendar day, the granularity at which watermarks are stored and
      compared (`'%Y-%m-%d'`). */
  datatype Day = Day(year: int, month: int, day: int)

  /** The clock as one run reads it: `today` is the local date the
      in-memory map records, `utcToday` the UTC date of the timestamp that the
      per-entity upsert stores. The two differ around midnight. */
  datatype Clock = Clock(today: Day, utcToday: Day)
}
