/** The optional value used for nullable columns and for `undefined` arguments. */
module Options {
  datatype Option<+T> = None | Some(value: T)
}
