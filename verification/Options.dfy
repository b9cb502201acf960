/** The Some/None wrapper used wherever the source returns a value or reports that there is none. */
module Options {
  datatype Option<+T> = None | Some(value: T)
}
