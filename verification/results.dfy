/** Failure-carrying values shared by the whole model. */
module Results {

  /** A value that may be absent (JavaScript's `null` / `undefined`). */
  datatype Option<+T> = None | Some(value: T)

  /** The outcome of a step that may throw: `Err` carries the thrown
      `Error`'s message. */
  datatype Result<+T> = Ok(value: T) | Err(message: string)
}
