/** A value that may be missing: nil, not found, or no error. */
module Options {
  datatype Option<+T> = None | Some(value: T)
}
