/** A value that may be absent: Go's nil, Python's None, a missing key, a failed parse. */
module Options {
  datatype Option<+T> = None | Some(value: T)
}
