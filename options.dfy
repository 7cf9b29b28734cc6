/** The optional value used wherever the game returns `null`, `undefined` or `Infinity` for "absent". */
module Options {
  datatype Option<+T> = None | Some(value: T)
}
