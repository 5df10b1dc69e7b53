/** The optional value used for lookups that may find nothing (JavaScript's
    `undefined` / `null` results of `find` and of the session pointer). */
module Options {
  datatype Option<+T> = None | Some(value: T)
}
