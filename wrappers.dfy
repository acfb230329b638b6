/** An optional value: PHP's `null`, `false` or a missing array key on one side,
    a present value on the other. */
module Wrappers {
  datatype Option<+T> = None | Some(value: T)
}
