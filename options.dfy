/** The optional value used wherever the source may or may not produce one. */
module Options {
  datatype Option<+T> = None | Some(value: T)
}
