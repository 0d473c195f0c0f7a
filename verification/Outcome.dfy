/** Failure-compatible results carrying the stable error codes of the application. */
module Outcome {

  datatype Option<+T> = None | Some(value: T)

  datatype Code =
    | InvalidArgument
    | NotFound
    | AlreadyExists
    | Conflict
    | Forbidden
    | FailedPrecondition
    | Internal

  datatype Result<+T> = Ok(value: T) | Err(code: Code) {
    predicate IsFailure() {
      Err?
    }

    function PropagateFailure<U>(): Result<U>
      requires Err?
    {
      Err(code)
    }

    function Extract(): T
      requires Ok?
    {
      value
    }
  }
}
