/** Helpers every module uses: optional values, results, 64-bit integers and injected store faults. */
module Shared {

  datatype Option<+T> = None | Some(value: T)

  datatype Result<+T, +E> = Ok(value: T) | Err(error: E)

  /** The error a Go function would return beside its value; None is nil. */
  function ErrorOf<T, E>(r: Result<T, E>): Option<E> {
    match r
    case Ok(_) => None
    case Err(e) => Some(e)
  }

  function ValueOr<T, E>(r: Result<T, E>, default: T): T {
    match r
    case Ok(v) => v
    case Err(_) => default
  }

  /** What can go wrong with one call to a store: nothing, an error before the
      effect, or an error reported although the effect took place. */
  datatype Fault = NoFault | Lost | Ambiguous

  type Uuid = nat

  const TWO_TO_63: int := 0x8000_0000_0000_0000
  const INT64_MAX: int := TWO_TO_63 - 1
  const INT32_MAX: int := 0x7FFF_FFFF

  type int64 = x: int | -TWO_TO_63 <= x < TWO_TO_63

  /** Go's int64 wrap-around: the one int64 congruent to x modulo 2^64. */
  function Wrap64(x: int): (r: int64)
    ensures (x - r) % (2 * TWO_TO_63) == 0
    ensures -TWO_TO_63 <= x < TWO_TO_63 ==> r == x
    ensures TWO_TO_63 <= x < 2 * TWO_TO_63 ==> r < 0
  {
    (x + TWO_TO_63) % (2 * TWO_TO_63) - TWO_TO_63
  }
}
