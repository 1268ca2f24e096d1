/** Failure-compatible wrappers shared by the duty-engine modules. */
module Wrappers {

  /** A value that may be absent; stands for Python's `None` defaults. */
  datatype Option<+T> = None | Some(value: T) {

    predicate IsFailure() {
      None?
    }

    function PropagateFailure<U>(): Option<U>
      requires None?
    {
      None
    }

    function Extract(): T
      requires Some?
    {
      value
    }
  }

  /** Either a value or the exception the Python code would raise. */
  datatype Result<+R, +E> = Success(value: R) | Failure(error: E) {

    predicate IsFailure() {
      Failure?
    }

    function PropagateFailure<U>(): Result<U, E>
      requires Failure?
    {
      Failure(error)
    }

    function Extract(): R
      requires Success?
    {
      value
    }
  }
}

/** The Python exceptions the duty engine can raise, with their messages. */
module Errors {

  datatype PyError =
    | ValueError(message: string)
    | ZeroDivisionError
}
