/** Result types shared by every module. An operation of the service either succeeds or
    reports one of the three error kinds of `liquid2/internal/app/errors.go`. */
module Prelude {

  datatype Option<+T> = None | Some(value: T)

  datatype Error = Conflict(message: string) | NotFound(resource: string) | Validation(message: string)

  /** The Go pair `(value, error)`: a failure carries no value and makes the surrounding
      transaction discard its writes. */
  datatype Result<+T> = Ok(value: T) | Err(error: Error) {
    predicate IsFailure() {
      Err?
    }

    function PropagateFailure<U>(): (r: Result<U>)
      requires Err?
    {
      Err(error)
    }

    function Extract(): (v: T)
      requires Ok?
    {
      value
    }
  }
}
