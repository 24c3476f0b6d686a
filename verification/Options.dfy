/** The optional value used throughout: a nil-able reference, an empty buffer, a failed conversion. */
module Options {
  datatype Option<+T> = None | Some(value: T)
}
