/** Option and Result types standing in for Python's None and raised exceptions. */
module Wrappers {

  /** Python's `None` or a value. */
  datatype Option<+T> = None | Some(value: T) {
    function GetOr(default: T): T {
      match this
      case Some(v) => v
      case None => default
    }
  }

  /** The Python exception classes the modelled code raises or lets escape. */
  datatype ErrorKind =
    | ValueError
    | RuntimeError
    | KeyError
    | IndexError
    | TypeError
    | AttributeError
    | FileExistsError
    | UnboundLocalError

  /** A value, or the exception that was raised instead of returning it. */
  datatype Result<+T> = Ok(value: T) | Err(error: ErrorKind) {
    predicate IsFailure() {
      Err?
    }

    function PropagateFailure<U>(): Result<U>
      requires Err?
    {
      Err(error)
    }

    function Extract(): T
      requires Ok?
    {
      value
    }

    /** The outcome of a step whose value is dropped. */
    function Outcome(): Outcome {
      if Ok? then Pass else Fail(error)
    }
  }

  /** The outcome of a procedure that returns nothing but may raise. */
  datatype Outcome = Pass | Fail(error: ErrorKind) {
    predicate IsFailure() {
      Fail?
    }

    function PropagateFailure(): Outcome
      requires Fail?
    {
      this
    }
  }
}
