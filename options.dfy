/** The optional value used where the source has `undefined`, `null` or an absent key. */
module Options {
  datatype Option<+T> = None | Some(value: T)
}
