/** Small shared datatypes. */
module Basics {

  datatype Option<+T> = None | Some(value: T)

  /** A finite run: what happens first is outermost. */
  datatype Trace<+T> = Done | Then(head: T, tail: Trace<T>)

  datatype Result<+T, +E> = Ok(value: T) | Err(error: E)
}
