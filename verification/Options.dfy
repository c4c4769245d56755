/** The value-or-nothing type the other modules use for a nullable column or a missing row. */
module Options {
  datatype Option<+T> = None | Some(value: T)
}
