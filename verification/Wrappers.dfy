/**
 Optional values, and values or errors.
 */
module Wrappers {

  datatype Maybe<+T> = Nothing | Just(value: T)

  datatype Result<+T, +E> = Ok(value: T) | Err(error: E) {
    predicate IsFailure() { Err? }
    function PropagateFailure<U>(): Result<U, E> requires Err? { Err(error) }
    function Extract(): T requires Ok? { value }
  }
}
