/** Option and Result, and the Java exceptions the modelled code throws. */
module Wrappers {

  /** A Java reference that may be null. */
  datatype Option<+T> = None | Some(value: T) {
    predicate IsFailure() { None? }

    function PropagateFailure<U>(): Option<U>
      requires None?
    {
      None
    }

    function Extract(): T
      requires Some?
    {
      value
    }
  }

  /** The exceptions raised by the modelled code, with the information the model keeps about them. */
  datatype Exception =
    | NullPointer
    | IllegalState(reason: string)
    | IllegalArgument(reason: string)
    | ClassCast(reason: string)
    | IndexOutOfBounds
    | Runtime(reason: string)
    | InvalidSqlColumn(table: string, column: string, reason: string)

  /** Either a normal return or a thrown exception. */
  datatype Result<+T> = Ok(value: T) | Err(error: Exception) {
    predicate IsFailure() { Err? }

    function PropagateFailure<U>(): Result<U>
      requires Err?
    {
      Err(error)
    }

    function Extract(): T
      requires Ok?
    {
      value
    }
  }
}
