/** The optional value returned by coordinate parsing (the source returns `(None, None)`). */
module Options {
  datatype Option<+T> = None | Some(value: T)
}
