/** The usual Some/None datatype, standing for Python's `X | None`. */
module Options {
  datatype Option<+T> = None | Some(value: T)
}
