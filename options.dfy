/** The Java `null` of the camera code, made explicit. */
module Options {

  /** `None` stands for a Java `null` reference, `Some(v)` for a present value. */
  datatype Option<+T> = None | Some(value: T)
}
