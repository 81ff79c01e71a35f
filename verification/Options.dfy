/** The optional value used wherever the program returns a value or nothing. */
module Options {
  datatype Option<+T> = None | Some(value: T)
}
