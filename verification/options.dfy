/** The optional value used wherever the Java code returns null, an empty
    Optional, or throws instead of producing a value. */
module Options {

  datatype Option<+T> = None | Some(value: T)
}
