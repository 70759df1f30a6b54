/** The optional value used across the model: JavaScript `undefined` or PHP
    `null` on one side, a present value on the other. */
module Options {
  datatype Option<T> = None | Some(value: T)
}
