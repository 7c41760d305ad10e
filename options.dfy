/** Python's "a value or None", used wherever the source returns None or an
    exception stands for a missing value. */
module Options {
  datatype Option<+T> = None | Some(value: T)
}
