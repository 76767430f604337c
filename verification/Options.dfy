/** A value that may be absent; a null pointer is `None`. */
module Options {
  datatype Option<+T> = None | Some(value: T)
}
