/** The usual Some/None datatype, used where the program has `null`, `undefined` or NaN. */
module Options {
  datatype Option<+T> = None | Some(value: T)
}
