/** Optional values and success/failure results, shared by every module of the model.
    Python's `None` and raised exceptions are modelled with these two datatypes. */
module Results {

  /** A value that may be absent (Python `None`, or a missing dictionary key). */
  datatype Option<+T> = None | Some(value: T) {

    /** The value, or `default` when absent (Python `d.get(key, default)`). */
    function GetOr(default: T): T {
      match this
      case Some(v) => v
      case None => default
    }
  }

  /** The outcome of an operation that may raise: a value, or the error it raised. */
  datatype Result<+T, +E> = Ok(value: T) | Err(error: E) {

    predicate IsFailure() {
      Err?
    }

    function PropagateFailure<U>(): Result<U, E>
      requires Err?
    {
      Err(error)
    }

    function Extract(): T
      requires Ok?
    {
      value
    }
  }
}
