/** The optional value used for Python's `None`-or-value results and arguments. */
module Options {

  datatype Option<+T> = None | Some(value: T)

}
