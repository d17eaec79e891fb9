/** Option and Result values for lookups that may find nothing and for
    operations that throw. */
module Wrappers {

  datatype Option<T> = None | Some(value: T)

  /** `Err` carries the message of the exception the source throws. */
  datatype Result<T> = Ok(value: T) | Err(message: string)
}
