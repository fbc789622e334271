// Results and the error codes the library raises.
module Wrappers {
  datatype Option<+T> = None | Some(value: T)

  datatype Result<+T, +E> = Ok(value: T) | Err(error: E) {
    predicate IsFailure() {
      Err?
    }

    function PropagateFailure<U>(): Result<U, E>
      requires Err?
    {
      Err(error)
    }

    function Extract(): T
      requires Ok?
    {
      value
    }
  }

  datatype Code =
    | Conflict
    | EventSequenceInvalid
    | IdempotencyConflict
    | InvalidArgument
    | ProjectionOutOfDate
    | SchemaViolation
    | Storage
}
