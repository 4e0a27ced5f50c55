/** An optional value, for what the source leaves `undefined` or `null`. */
module Options {
  datatype Option<+T> = None | Some(value: T)
}
