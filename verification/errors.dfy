/** How an instruction of the program can end. */
module Errors {
  /** The program's own error codes (`TxGuardError`). */
  datatype TxGuardError = InvalidPriorityFeeTier | CountOverflow

  /**
   * An instruction fails either with one of the program's error codes or by
   * aborting on an arithmetic overflow that is not checked by the program itself.
   */
  datatype Error = Custom(code: TxGuardError) | OverflowPanic

  /** Rust's `Result<T>` as returned by an Anchor instruction handler. */
  datatype Result<T> = Ok(value: T) | Err(error: Error)

  /**
   * A handler's result `r` and the accounts `after` it agree with the
   * specified result `spec`: `Ok` with exactly those contents, or the same error.
   */
  predicate Agrees<T(==)>(r: Result<()>, spec: Result<T>, after: T) {
    if r.Ok? then spec == Ok(after) else spec == Err(r.error)
  }
}
