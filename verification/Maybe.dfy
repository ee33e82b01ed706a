/** A value that may be missing. */
module Maybe {
  datatype Option<T> = None | Some(value: T)
}
