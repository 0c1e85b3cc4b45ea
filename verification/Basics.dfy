/** Failure-carrying values shared by the other modules. */
module Basics {

  datatype Option<+T> = None | Some(value: T)

  /** What went wrong; the wording of messages is not modelled. */
  datatype Error =
    | BadName | OutOfRange | BadConfig | WrongType | UnknownDevice | BadState
    | InUse | Conflict | NotFound | InsufficientResources | DeviceFailure | StoreFailure | FileFailure

  /** A Go pair `(value, error)`: exactly one side is meaningful. */
  datatype Result<+T> = Ok(value: T) | Err(error: Error) {
    predicate IsFailure() {
      Err?
    }

    function PropagateFailure<U>(): Result<U>
      requires Err?
    {
      Err(error)
    }

    function Extract(): T
      requires Ok?
    {
      value
    }
  }
}
