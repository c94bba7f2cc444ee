/** A value that may be absent: a nil pointer, a NULL column, a missing row. */
module Options {
  datatype Option<+T> = None | Some(value: T)
}
