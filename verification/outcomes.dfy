/** Optional values and the error outcome of the components.

    The components report an invalid configuration by raising Python's
    `ValueError`; the model returns it as a value instead. */
module Outcomes {

  datatype Option<+T> = None | Some(value: T)

  /** Either a computed value, or the `ValueError` the component raises. */
  datatype Result<+T> = Ok(value: T) | ValueError(message: string)
}
