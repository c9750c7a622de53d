/** The usual optional value, for the nullable columns and absent results of the program. */
module Options {
  datatype Option<+T> = None | Some(value: T)
}
