/** Null engine references and optional results, as a value. */
module Optional {

  datatype Option<+T> = None | Some(value: T)
}
