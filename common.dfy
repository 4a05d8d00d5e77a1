/** Shared vocabulary: optional values, identifiers, instants and the probe check types. */
module Common {

  datatype Option<+T> = None | Some(value: T)

  /** Row identifiers (the database's `Guid` primary keys). */
  type Id = nat

  /** Points in time, in milliseconds since a fixed epoch. */
  type Instant = int

  /** Milliseconds in one day (`TimeSpan.TotalDays` truncated by an `(int)` cast). */
  const DayMs: int := 86_400_000

  /** The three check types the worker knows, as stored in the `check_type` columns. */
  const DNS: string := "DNS"
  const TLS: string := "TLS"
  const HTTP: string := "HTTP"

  predicate IsKnownCheckType(t: string) {
    t == DNS || t == TLS || t == HTTP
  }
}
