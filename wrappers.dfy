/** Option and Result: the encoder's error path and the readers' failure path. */
module Wrappers {

  datatype Option<+T> = None | Some(value: T)

  /** The outcome of one encoding call: the text, or the error message the
      encoder reports for an unsupported value. */
  datatype Result<+T> = Ok(value: T) | Err(error: string)
}
