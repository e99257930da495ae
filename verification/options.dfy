/** The optional value used for nullable state and partial results. */
module Options {

  datatype Option<+T> = None | Some(value: T)
}
