/** A value that may be absent; stands for Python's `None` beside a real value. */
module Optional {
  datatype Option<+T> = None | Some(value: T)
}
