/** The two failure shapes the modelled Python code uses: a value that may be
    absent, and a call that may raise with a reason code. */
module Results {

  datatype Option<+T> = None | Some(value: T)

  /** `Fail(reason)` stands for the exception raised by `fail(reason)`. */
  datatype Result<+T> = Ok(value: T) | Fail(reason: string) {

    predicate IsFailure() {
      Fail?
    }

    function PropagateFailure<U>(): Result<U>
      requires Fail?
    {
      Fail(reason)
    }

    function Extract(): T
      requires Ok?
    {
      value
    }
  }
}
