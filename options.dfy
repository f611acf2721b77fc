/** An optional value, used where the source returns "nothing" or reads out of bounds. */
module Options {
  datatype Option<+T> = None | Some(value: T)
}
