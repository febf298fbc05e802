/** Failure-carrying results, in place of the program's exceptions and None returns, bytes, and an
    arithmetic fact that several modules use. */
module Wrappers {

  datatype Option<+T> = None | Some(value: T)

  datatype Result<+T, +E> = Success(value: T) | Failure(error: E)

  type Byte = b: int | 0 <= b < 256

  lemma MulMonotone(a: int, b: int, factor: int)
    requires a <= b && 0 <= factor
    ensures a * factor <= b * factor
  {
  }
}
