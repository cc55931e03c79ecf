/** Failure-compatible result types shared by the move handler. */
module Wrappers {

  /** A value that may be absent: the handler's "no move" outcome. */
  datatype Option<+T> = None | Some(value: T)

  /** Either a value or the error that prevented computing it. */
  datatype Result<+R, +E> = Success(value: R) | Failure(error: E)
}
