/** Optional values and the outcome of a call that may raise, shared by the
    helpers and by `main`. */
module Outcomes {

  datatype Option<+T> = None | Some(value: T)

  /** What an OpenCV or NumPy call produced: a value, or the exception it raised. */
  datatype Result<+T> = Ok(value: T) | Err(error: string) {

    predicate IsFailure() {
      Err?
    }

    function PropagateFailure<U>(): Result<U>
      requires Err?
    {
      Err(error)
    }

    function Extract(): T
      requires Ok?
    {
      value
    }
  }
}
