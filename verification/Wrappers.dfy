/** A value or none. */
module OptionWrapper {
  datatype Option<+T> = None | Some(value: T)
}

/** A value or a failure, where only the fact of the failure matters. */
module ResultWrapper {
  datatype Result<+T> = Ok(value: T) | Err
}
