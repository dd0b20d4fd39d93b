/** Failure-carrying datatypes shared by both scripts. Each script raises its
    own `ConfigError` exception class; both carry only a message, so one
    datatype stands for them. */
module Wrappers {

  datatype Option<+T> = None | Some(value: T)

  /** The exception a configuration step raises, with its message. */
  datatype ConfigError = ConfigError(message: string)

  /** Either a value or the `ConfigError` the script would raise. */
  datatype Result<+T> = Success(value: T) | Failure(error: ConfigError)
}
