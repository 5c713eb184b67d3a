/** Optional values, and the three states of a patch field on the wire. */
module Options {
  datatype Option<+T> = None | Some(value: T)

  /** Omitted, null, or a value. */
  datatype Patch<+T> = Unset | Null | Put(value: T)
}
