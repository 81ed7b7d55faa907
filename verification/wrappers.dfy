/**
 * Option and Result types shared by the whole model, and the error values the
 * simulator raises as Python exceptions.
 */
module Wrappers {

  datatype Option<+T> = None | Some(value: T)
  {
    function UnwrapOr(default: T): T {
      match this
      case Some(v) => v
      case None() => default
    }
  }

  /**
   * The exceptions the modelled code can raise.  Each constructor is named
   * after the Python exception (or the simulator's own exception class).
   */
  datatype Error =
    | NotImplemented             // NotImplementedException of the base scaler
    | IndexError                 // list index out of range
    | StopIteration              // next() on an exhausted file
    | ZeroDivisionError
    | TypeError                  // None used as a number, map over unequal lists
    | ValueError                 // max() of an empty list, randint on an empty range
    | AttributeError             // a VM that never received a start_time
    | NameError                  // a call to an undefined name
    | RuntimeError               // the simulator's own consistency checks
    | NegativeStartupTime        // NegativeStartupTimeException
    | ProvisioningDataFileEmpty  // ProvisioningDataFileEmptyException
    | AssertionError             // a failed assert statement
    | PlainException             // a bare Exception raised with a message

  datatype Result<+T> = Ok(value: T) | Err(error: Error)
  {
    predicate IsFailure() {
      Err?
    }

    function PropagateFailure<U>(): Result<U>
      requires Err?
    {
      Err(error)
    }

    function Extract(): T
      requires Ok?
    {
      value
    }
  }
}
