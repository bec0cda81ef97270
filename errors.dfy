/** The crate's error enum, restricted to the variants this model produces,
    and the Option/Result shapes used to carry them. */
module Errors {

  /** crate::Error as raised by the BLE transport. `IndexPanic` is not a value
      of the crate's enum: it stands for the out-of-bounds slice that makes the
      source panic, so that the model can state when that happens. */
  datatype Error =
    | NoDevices
    | Unknown
    | Closed
    | UnexpectedResponse
    | EmptyResponse
    | IndexPanic

  datatype Option<+T> = None | Some(value: T)
  {
    function GetOr(default: T): T
    {
      match this
      case Some(v) => v
      case None => default
    }
  }

  datatype Result<+T> = Ok(value: T) | Err(error: Error)
}
