/** Small value wrappers shared by the component models. */
module Wrappers {

  /** A value that may be absent, such as an entry of the browser's key/value store. */
  datatype Option<T> = None | Some(value: T)

  /** How one remote call ended: the response data, or a failure that the caller caught and logged. */
  datatype Outcome<T> = Ok(data: T) | Err
}
