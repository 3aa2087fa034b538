/** Nullable results of the Kotlin code (`T?`) as an explicit option. */
module Options {
  datatype Option<+T> = None | Some(value: T)
}
