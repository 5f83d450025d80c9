/** An optional value, for the places where the game uses None. */
module Options {
  datatype Option<T> = None | Some(value: T)
}
