/** The optional value used wherever the source has `undefined` or a missing field. */
module Options {

  datatype Option<+T> = None | Some(value: T)
}
