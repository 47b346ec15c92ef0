/** The optional value used wherever the original data may be `null` or `undefined`. */
module Wrappers {

  /** `None` stands for both `null` and `undefined`; `Some(v)` for a present value. */
  datatype Option<+T> = None | Some(value: T)
}
