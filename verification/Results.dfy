/** Optional values and the outcome of an operation that may throw. */
module Results {

  datatype Option<+T> = None | Some(value: T)

  /** An exception carries its text; the callers modelled here only ask whether one was thrown. */
  datatype Result<+T> = Ok(value: T) | Thrown(reason: string) {
    predicate IsFailure() {
      Thrown?
    }

    function PropagateFailure<U>(): Result<U>
      requires Thrown?
    {
      Thrown(reason)
    }

    function Extract(): T
      requires Ok?
    {
      value
    }
  }
}
