/** Failure-carrying datatypes: PHP exceptions and nullable results become values. */
module Wrappers {

  /** A nullable PHP return value: `None` stands for `null`. */
  datatype Option<+T> = None | Some(value: T)

  /** The outcome of a PHP call that either returns normally or throws. */
  datatype Result<+T, +E> = Ok(value: T) | Err(error: E)
}
