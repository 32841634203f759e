/** The usual present/absent wrapper. */
module Options {

  datatype Option<+T> = None | Some(value: T)

}
