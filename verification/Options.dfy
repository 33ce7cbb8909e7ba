/** An optional value, for the program's NULL and its "not found". */
module Options {
  datatype Option<+T> = None | Some(value: T)
}
