/** A nullable reference of the Java source, written as an explicit optional value. */
module Optional {

  datatype Option<+T> = None | Some(value: T)
}
