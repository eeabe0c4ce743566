/** Shared vocabulary: optional values, fallible results, and instants. */
module Base {

  datatype Option<+T> = None | Some(value: T)

  datatype Result<+T, +E> = Ok(value: T) | Err(error: E)

  /** An instant or a duration, in nanoseconds. */
  type Instant = int

  const SECOND: int := 1_000_000_000

  /** Identities are opaque; a fresh UUID is any unused value. */
  type Id = nat

  ghost predicate Distinct<T>(s: seq<T>) {
    forall i, j :: 0 <= i < j < |s| ==> s[i] != s[j]
  }
}
