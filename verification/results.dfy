/**
 * Failure-carrying values shared by every module of the model.
 *
 * The source reports failure in four ways: C++ exceptions (`std::invalid_argument`,
 * `std::runtime_error`, a thrown `std::string`), an exception escaping a function
 * declared `throw()` (which ends the program through `std::terminate`), a call to
 * `exit(1)`, and Python exceptions in the helper scripts; one reader can also loop
 * forever.  `Error` names each of them so that a contract can say which one an input
 * leads to.
 */
module Results {

  datatype Option<+T> = None | Some(value: T)
  {
    predicate IsFailure() { None? }

    function PropagateFailure<U>(): Option<U>
      requires None?
    {
      None
    }

    function Extract(): T
      requires Some?
    {
      value
    }

    function GetOr(default: T): T
    {
      match this
      case Some(v) => v
      case None => default
    }
  }

  /** How a call of the source fails instead of returning normally. */
  datatype Error =
    | InvalidArgument(what: string)   // std::invalid_argument
    | RuntimeError(what: string)      // std::runtime_error
    | Thrown(what: string)            // a std::string thrown and caught by a loader
    | Terminate                       // an exception leaving a throw() function
    | ExitFailure                     // exit(1)
    | Diverges                        // a loop that never ends
    | PyException(kind: string)       // Exception, AssertionError, ValueError, KeyError

  datatype Result<+T> = Ok(value: T) | Err(error: Error)
  {
    predicate IsFailure() { Err? }

    function PropagateFailure<U>(): Result<U>
      requires Err?
    {
      Err(error)
    }

    function Extract(): T
      requires Ok?
    {
      value
    }
  }
}
