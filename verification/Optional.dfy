/** A value that may be absent: Rust's `Option`, and `null` or `undefined` on the web side. */
module Optional {
  datatype Option<T> = None | Some(value: T)
}
