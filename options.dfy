/** Optional values: a missing database record, a `null` reference, an unset field. */
module Options {

  datatype Option<+T> = None | Some(value: T)
}
