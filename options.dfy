/** The optional value used for every nullable column of a data frame row. */
module Options {
  datatype Option<+T> = None | Some(value: T)
}
