/** Failure-carrying wrappers, and a sequence fact, used across the model. */
module Base {

  /** Python's `Optional[T]`: `None` or a present value. */
  datatype Option<+T> = None | Some(value: T)

  /** The outcome of an operation that may raise: a value, or the message of the raised error. */
  datatype Result<+T> = Ok(value: T) | Err(message: string)

  /** Concatenation regroups freely. */
  lemma Associative<T>(a: seq<T>, b: seq<T>, c: seq<T>)
    ensures (a + b) + c == a + (b + c)
  {
  }
}
