/** A value that may be absent: `T | null` / `T | undefined` in the source. */
module Options {
  datatype Option<+T> = None | Some(value: T)
}
