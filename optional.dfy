/** A value that may be absent, as Python's `None` is used for a running bound that is not set yet. */
module Optional {
  datatype Option<T> = None | Some(value: T)
}
