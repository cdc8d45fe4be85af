/** An optional value: the source's nil-or-value returns and nil errors. */
module Options {
  datatype Option<+T> = None | Some(value: T)
}
