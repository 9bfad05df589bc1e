/** An optional value: the sources' `Option`, `null` and `undefined`. */
module Options {
  datatype Option<+T> = None | Some(value: T)
}
