/** Optional values and results shared by every stage of the query pipeline. */
module Base {
  datatype Option<+T> = None | Some(value: T)

  /** A computation that either produced a value or raised an error; `:-` propagates the error. */
  datatype Result<+T, +E> = Ok(value: T) | Err(error: E) {
    predicate IsFailure() { Err? }

    function PropagateFailure<U>(): Result<U, E>
      requires Err?
    {
      Err(error)
    }

    function Extract(): T
      requires Ok?
    {
      value
    }
  }
}
