/** Failure-carrying values shared by every module of the model.

    `Option` stands for a nullable reference (Java `null`, Swift `nil`);
    `Result` stands for a call that either returns a value or throws, the
    error carrying the exception's message. */
module Results {

  datatype Option<+T> = None | Some(value: T)

  datatype Result<+T> = Ok(value: T) | Err(message: string) {
    predicate IsFailure() { Err? }

    function PropagateFailure<U>(): Result<U>
      requires Err?
    {
      Err(message)
    }

    function Extract(): T
      requires Ok?
    {
      value
    }
  }

  /** A call on a mutable object: the object's state afterwards and the
      message of the exception the call threw, if any. */
  datatype SetterCall<+S> = SetterCall(state: S, thrown: Option<string>)

  /** Java's `Math.min`/`Math.max` and Swift's `min`/`max` on integers. */
  function Min(a: int, b: int): int { if a <= b then a else b }
  function Max(a: int, b: int): int { if a >= b then a else b }
}
