/** The crate's error taxonomy (`NuitrackError`) and its result alias. */
module Errors {
  import opened Wrappers

  /** One variant per arm of `NuitrackError`; the payload is the formatted message. */
  datatype NuitrackError =
    | Ffi(what: string)
    | Wrapper(msg: string)
    | AlreadyInitialized
    | InitFailed(msg: string)
    | DeviceError(msg: string)
    | ModuleCreationFailed(msg: string)
    | NoDeviceFound
    | OperationFailed(msg: string)

  type NuitrackResult<T> = Result<T, NuitrackError>

  /** The unit value `()` that successful commands return. */
  datatype Unit = Unit
}
