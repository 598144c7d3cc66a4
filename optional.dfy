/** The absent-or-present value used for parse results and the command slot. */
module Optional {
  datatype Option<+T> = None | Some(value: T)
}
