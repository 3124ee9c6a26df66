// Where the Python code raises (KeyError, ValueError, IndexError from a
// lookup), the model returns a Result instead. The three members inside the
// datatype are what the `:-` operator needs to pass a failure upwards.
module Results {

  /** The outcome of a call: what it built, or why it stopped. */
  datatype Result<+T, +E> = Success(value: T) | Failure(error: E) {

    predicate IsFailure() {
      Failure?
    }

    function PropagateFailure<U>(): Result<U, E>
      requires Failure?
    {
      Failure(error)
    }

    function Extract(): T
      requires Success?
    {
      value
    }
  }

  /** Something that may be missing: a configuration entry, a recognised kind, a missing keyword. */
  datatype Option<+T> = None | Some(value: T)
}
