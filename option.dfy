/** An optional value, for Python's `None` and Go's missing results. */
module Optional {
  datatype Option<+T> = None | Some(value: T)
}
