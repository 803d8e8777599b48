/** A value that may be missing, and one whose computation may fail. */
module Optional {
  datatype Option<+T> = None | Some(value: T)

  datatype Result<+T> = Ok(value: T) | Err(error: string)
}
