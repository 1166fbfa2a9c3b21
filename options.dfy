/** The optional value of a statistics field: a Thrift field that is unset, or a null handle. */
module Options {

  datatype Option<+T> = None | Some(value: T)
}
