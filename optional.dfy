/** A value that the source keeps in a nullable reference. */
module Optional {

  datatype Option<+T> = None | Some(value: T)
}
