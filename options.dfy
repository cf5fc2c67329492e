/** Optional values: the answer of a remote read that may throw, or a result that may be absent. */
module Options {
  datatype Option<+T> = None | Some(value: T)
}
