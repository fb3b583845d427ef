/** The optional value that Swift writes `T?`. */
module Options {
  datatype Option<T> = None | Some(value: T)
}
