/** An optional value: the result of a parse that may reject its input. */
module Optional {

  datatype Option<T> = None | Some(value: T)
}
