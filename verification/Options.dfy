module Options {

  /** Python's `None` beside a value. */
  datatype Option<+T> = None | Some(value: T)
}
