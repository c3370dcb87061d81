/** Failure-carrying values for the action's validation step: a thrown `Error(message)`
    becomes `Err(message)` / `Fail(message)`. */
module Results {

  /** A computation that either produces a value or fails with the thrown message. */
  datatype Result<+T> = Ok(value: T) | Err(error: string)

  /** A check that either passes or fails with the thrown message. */
  datatype Outcome = Pass | Fail(error: string)

  datatype Option<+T> = None | Some(value: T)
}
