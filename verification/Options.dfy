/** The optional value used where the Go code has a nil pointer, a zero time or a missing key. */
module Options {
  datatype Option<+T> = None | Some(value: T)
}
