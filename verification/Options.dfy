/** The optional value every module shares: the source's `T | null` and `T | undefined`. */
module Options {
  datatype Option<+T> = None | Some(value: T)
}
