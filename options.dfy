/** The optional-value datatype used for decoders that may reject their input. */
module Options {
  datatype Option<+T> = None | Some(value: T)
}
