/** A value that may be missing: a nil pointer, an absent map entry, a second result of false. */
module Options {
  datatype Option<+T> = None | Some(value: T)
}
