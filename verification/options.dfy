/** An optional value: stands for a Java reference that may be null, and for
    a computation that either yields a value or throws. */
module Options {

  datatype Option<+T> = None | Some(value: T)
}
