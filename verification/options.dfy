/** An optional value: a percentage that is absent when the opening price is zero. */
module Options {

  datatype Option<+T> = None | Some(value: T)
}
