/** Option and Result values standing in for the NULL pointers and the
    `exit(EXIT_FAILURE)` calls of the screenshot tool. */
module Wrappers {

  datatype Option<+T> = None | Some(value: T)

  datatype Result<+T, +E> = Ok(value: T) | Err(error: E)

  /** Every fatal condition of the tool; each one is a message followed by
      `exit(EXIT_FAILURE)` in the C program. */
  datatype Failure =
    | MissingAddress          // "Error: Missing address"
    | InstrumentIdUnavailable // connect or receive failed in get_device_id
    | AutodetectFailed        // no plugin scored above zero
    | UnknownPluginName       // explicit name not registered
    | PluginListFull          // all registry slots taken
    | CannotWriteFile         // fopen of the screenshot file failed
}
