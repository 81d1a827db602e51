/** A value that may be absent: the source's std::optional, null handles and null callbacks. */
module Options {
  datatype Option<T> = None | Some(value: T)
}
