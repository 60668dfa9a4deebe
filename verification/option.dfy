/** A Python argument or result that may be `None`. */
module Optional {

  datatype Option<T> = None | Some(value: T)
}
