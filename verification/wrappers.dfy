/** Wrappers shared by the model: `Option` stands for a Kotlin nullable
    value, `Result` for a call that may end in an exception. */
module Wrappers {

  /** A Kotlin `T?`: `None` is `null`. */
  datatype Option<+T> = None | Some(value: T)

  /** The exceptions the modelled code can raise. */
  datatype Failure =
    | NullPointer   // a `!!` applied to null

  /** Either a normal return or the exception that ended the call. */
  datatype Result<+T> = Ok(value: T) | Err(error: Failure)
}
