/** Failure-compatible result types shared by the puzzle solvers. */
module Wrappers {

  /** An optional value: the solvers' `Option`. */
  datatype Option<+T> = None | Some(value: T)

  /** A value or the error that stopped the computation: the solvers' `Result`. */
  datatype Result<+T, +E> = Ok(value: T) | Err(error: E)
}
