/** The optional value used wherever the source has a C NULL or a PHP null. */
module Options {

  datatype Option<+T> = None | Some(value: T)
}
