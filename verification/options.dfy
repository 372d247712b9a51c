/** An optional value: None for what the source leaves null or absent. */
module Options {

  datatype Option<+T> = None | Some(value: T)
}
