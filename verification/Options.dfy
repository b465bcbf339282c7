/** An optional value, for the source's absent fields and results. */
module Options {

  datatype Option<+T> = None | Some(value: T)
}
