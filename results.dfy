/** Error handling shared by the whole model: the Python exception classes the
    library raises, and a failure-compatible result type carrying one of them. */
module Results {

  /** The exception a Python operation raises, by class. */
  datatype Exc =
    | TypeError
    | ValueError
    | KeyError
    | IndexError
    | AttributeError
    | OSError
    | RuntimeError
    | NotImplementedError
    | SpockEnvResolverError
    | SpockNotOptionalError
    /** Python's recursion limit, reached by class references nested too deep. */
    | RecursionError

  datatype Option<+T> = None | Some(value: T)

  datatype Result<+T> = Ok(value: T) | Err(exc: Exc) {
    predicate IsFailure() { Err? }

    function PropagateFailure<U>(): Result<U>
      requires Err?
    {
      Err(exc)
    }

    function Extract(): T
      requires Ok?
    {
      value
    }
  }

  /** The outcome of a check that raises or returns nothing. */
  datatype Outcome = Pass | Fail(exc: Exc) {
    predicate IsFailure() { Fail? }

    function PropagateFailure<U>(): Result<U>
      requires Fail?
    {
      Err(exc)
    }
  }
}
