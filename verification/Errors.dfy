/** How a handler can end: normally, by throwing an error code, or by resetting the device. */
module Errors {

  datatype Option<+T> = None | Some(value: T)

  datatype Error =
    | ErrBadRequestHeader
    | ErrUnknownCla
    | ErrUnknownIns
    | ErrInvalidState
    | ErrInvalidParameters
    | ErrInvalidData
    | ErrRejectedByUser
    | ErrRejectedByPolicy
    | ErrDeviceLocked
    | ErrAssert

  /** A failed `VALIDATE` throws; a failed `ASSERT` resets the device (the build sets `RESET_ON_CRASH`). */
  datatype Result<+T> = Ok(value: T) | Throws(error: Error) | Reset
}
