/** The optional value the rest of the project uses where the source uses nil. */
module Options {
  datatype Option<+T> = None | Some(value: T)
}
