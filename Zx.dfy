/** The Zircon status codes the kernel structures and the HAL helpers return.
    The source defines their numeric values in more than one header, and not
    consistently (`ZX_ERR_INVALID_ARGS` is -2 in one and -10 in another), so
    the model keeps them symbolic. */
module Zx {
  datatype Status =
    | Ok
    | NoMemory
    | InvalidArgs
    | NotFound
    | BadHandle
    | BadState
    | NotSupported
    | IoError
    | TimedOut
}
