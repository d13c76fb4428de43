/** A value that may be absent: `null`, `undefined` or a failed lookup on
    the one side, a present value on the other. */
module Options {
  datatype Option<+T> = None | Some(value: T)
}
