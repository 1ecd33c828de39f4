/** A value that may be absent, for the error returns and nil results of the original. */
module Optional {
  datatype Option<+T> = None | Some(value: T)
}
