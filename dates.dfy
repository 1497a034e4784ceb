/** Dates, as the BSON documents and the change entries both carry them. */
module Dates {

  /** A `java.util.Date`, as milliseconds since the epoch. */
  datatype Instant = Instant(epochMillis: int)
}
