/** The optional value used for absent parents, failed parses and failed pattern builds. */
module Options {
  datatype Option<+T> = None | Some(value: T)
}
