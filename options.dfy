/** The optional value that the scripts express with Python's `None`. */
module Options {
  datatype Option<+T> = None | Some(value: T)
}
