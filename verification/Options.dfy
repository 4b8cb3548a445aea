/** An optional value: a null or absent entry of the source. */
module Options {
  datatype Option<+T> = None | Some(value: T)
}
