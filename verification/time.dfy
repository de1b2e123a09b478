/** Points in time, shared by the paper record and the job registry. */
module Time {
  /** Timestamps are opaque instants; no part of the model inspects them. */
  type Timestamp = int
}
