/** The option and result types the other modules share. */
module Wrappers {

  datatype Option<+T> = None | Some(value: T) {
    predicate IsFailure() {
      None?
    }

    function PropagateFailure<U>(): Option<U>
      requires None?
    {
      None
    }

    function Extract(): T
      requires Some?
    {
      value
    }
  }

  /** A call either finishes with a value or reports an error. */
  datatype Result<+T, +E> = Ok(value: T) | Err(error: E)
}
