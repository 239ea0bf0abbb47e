/** The result of a step that may not be enabled. */
module Options {
  datatype Option<+T> = None | Some(value: T)
}
