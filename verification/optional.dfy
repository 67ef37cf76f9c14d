/** A small Some/None datatype for partial results. */
module Optional {

  datatype Option<+T> = None | Some(value: T)
}
