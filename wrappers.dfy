/** Result type for operations of the driver that can raise. */
module Wrappers {

  datatype Result<T, E> = Ok(value: T) | Err(error: E)
}
