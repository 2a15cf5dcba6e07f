/** The optional-value datatype used for the nullable columns of the tables. */
module Options {

  /** A value that may be absent (the tables' nullable columns). */
  datatype Option<+T> = None | Some(value: T)
}
