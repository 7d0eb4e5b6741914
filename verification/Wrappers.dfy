/** Values that may be missing, and operations that may fail. */
module Wrappers {

  datatype Option<+T> = None | Some(value: T)

  datatype Result<+T> = Ok(value: T) | Error {
    predicate IsFailure() { Error? }
    function PropagateFailure<U>(): Result<U> requires Error? { Error }
    function Extract(): T requires Ok? { value }
  }
}
