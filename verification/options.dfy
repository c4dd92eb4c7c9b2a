/** A value that may be absent: a JavaScript field that is `undefined` until written. */
module Options {

  datatype Option<+T> = None | Some(value: T)

}
