/** Option and Result in the shape Paykit's Rust code uses them. */
module Wrappers {

  datatype Option<+T> = None | Some(value: T)

  /** The error classes callers tell apart; message texts are not modelled. */
  datatype Error =
    | Validation   // a value failed its own constructor's checks
    | InvalidData  // bytes came back from storage but do not decode
    | Transport    // the request itself failed

  datatype Result<+T> = Ok(value: T) | Err(error: Error)
}
