/** The optional value that stands for Python's None and for SQL NULL. */
module Options {
  datatype Option<+T> = None | Some(value: T)
}
