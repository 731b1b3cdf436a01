/** Failure-carrying wrappers shared by every module of the model: Python's
    `None` defaults and raised exceptions become explicit values. */
module Common {

  /** An optional argument (`None` in Python) or an optional result. */
  datatype Option<T> = None | Some(value: T)

  /** A raised exception (`Err`) or a normal return (`Ok`). */
  datatype Result<T, E> = Ok(value: T) | Err(error: E)

  /** A check that returns nothing when it passes and raises when it fails. */
  datatype Outcome<E> = Pass | Fail(error: E)
}
