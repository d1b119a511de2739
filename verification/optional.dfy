/** A value that may be missing, as the source's None. */
module Optional {
  datatype Option<+T> = None | Some(value: T)
}
