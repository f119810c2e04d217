/** The optional values Swift writes as `T?`. */
module Options {

  datatype Option<+T> = None | Some(value: T)
}
