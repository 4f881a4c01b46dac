/** The optional value used for cells that are blank or do not parse. */
module Options {
  datatype Option<T> = None | Some(value: T)
}
