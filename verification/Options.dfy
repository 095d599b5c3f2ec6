/** A value that may be absent, where the program stores `null`. */
module Options {
  datatype Option<+T> = None | Some(value: T)
}
