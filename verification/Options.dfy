/** A value that may be absent: nil references, missing rows, calls that return an error. */
module Options {
  datatype Option<+T> = None | Some(value: T)
}
