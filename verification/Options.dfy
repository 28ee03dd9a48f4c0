/** A value that may be absent: the source's nil pointers, zero times and missing files. */
module Options {
  datatype Option<+T> = None | Some(value: T)
}
