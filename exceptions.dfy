/**
 * The exceptions the legacy import can raise, and the result types that
 * stand in for Java's `throw`: a call either returns a value or throws.
 */
module Exceptions {

  /** Why an exception of a type other than ChangockException was thrown. */
  datatype Cause =
    | ClassCast(field: string)  // a document field read as a string or date holds another BSON type
    | NullPointer               // a method was called on a null reference
    | CursorFailure             // the driver failed while iterating the legacy collection
    | StoreFailure              // the change-entry store refused a write

  /** Why a ChangockException was thrown. */
  datatype Reason =
    | Misconfigured                               // the legacy-migration configuration is incomplete
    | CountMismatch(expected: int, actual: int)   // the expected count of changes was not met
    | Wrapped(cause: Cause)                       // `new ChangockException(ex)` around a foreign exception

  datatype Exception =
    | ChangockException(reason: Reason)
    | ForeignException(cause: Cause)

  /** The outcome of a Java call that returns a value of type T or throws. */
  datatype Result<T> = Ok(value: T) | Err(error: Exception) {

    predicate IsFailure() {
      Err?
    }

    function PropagateFailure<U>(): Result<U>
      requires Err?
    {
      Err(error)
    }

    function Extract(): T
      requires Ok?
    {
      value
    }
  }

  /** The outcome of a Java `void` call: it returns normally or throws. */
  datatype Outcome = Returned | Threw(exception: Exception)
}
