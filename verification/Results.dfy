/** Values that may be missing, computations that may be refused and calls that may raise. */
module Results {
  datatype Option<+T> = None | Some(value: T)

  datatype Result<+T> = Ok(value: T) | Error(message: string)

  /** How a guarded call ends: a `Fault` is an exception its handler catches, an `Escape` one
      that it does not. Where the handler catches `Exception`, `SystemExit` escapes. */
  datatype Ending = Fine | Fault | Escape
}
