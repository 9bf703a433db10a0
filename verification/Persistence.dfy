/** What can become of a write. */
module Persistence {
  /** A write is stored and acknowledged, reported as failed and not stored, or reported as failed although stored. */
  datatype Outcome = Applied | Lost | Unacknowledged
}
