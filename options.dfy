/** An optional value: used for the optional flavour profile of a product and
    for the result of parsing a clock-face string. */
module Options {
  datatype Option<+T> = None | Some(value: T)
}
