/** The usual optional value: a database NULL, an absent row, a null pointer. */
module Options {
  datatype Option<+T> = None | Some(value: T)
}
