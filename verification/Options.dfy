module Options {
  /** A value that may be missing: a nil pointer or slice, or an absent map entry. */
  datatype Option<+T> = None | Some(value: T)
}
