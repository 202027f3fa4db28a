/** Identities, instants, optional values and typed refusals, shared by every module. */
module Common {

  /** An identity. A newly minted one is modelled as one that no stored row carries yet. */
  type Uuid = nat

  /** Microseconds, the resolution of a stored `timestamptz`. */
  type Instant = int

  const SECOND: int := 1_000_000

  datatype Option<+T> = None | Some(value: T)

  datatype Result<+T, +E> = Ok(value: T) | Err(error: E)

  /** SQL's `coalesce`. */
  function Coalesce<T>(first: Option<T>, second: Option<T>): Option<T> {
    if first.Some? then first else second
  }

  function Max(a: int, b: int): int {
    if a < b then b else a
  }

  function Min(a: int, b: int): int {
    if a < b then a else b
  }
}
