/** The usual optional-value wrapper, used for parsers that may reject their input. */
module Optional {
  datatype Option<+T> = None | Some(value: T)
}
