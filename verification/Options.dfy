// Optional values: the source's `undefined` and SQL NULL.
module Options {
  datatype Option<+T> = None | Some(value: T)
}
