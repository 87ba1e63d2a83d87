/** Python's None, where a value may be missing. */
module Options {
  datatype Option<T> = None | Some(value: T)
}
