/** Failure-compatible wrappers shared by the whole model. */
module Wrappers {

  /** `None` stands for the floating-point NaN sentinel of the kernels, or for
      an absent value. */
  datatype Option<+T> = None | Some(value: T)

  /** A value or the error the source raises instead of returning. */
  datatype Result<+R, +E> = Success(value: R) | Failure(error: E)

  /** C comparison `x <= c` where `x` may be NaN: a NaN compares false. */
  predicate AtMost(x: Option<real>, c: real) {
    x.Some? && x.value <= c
  }

  /** C comparison `x > c` where `x` may be NaN: a NaN compares false. */
  predicate Above(x: Option<real>, c: real) {
    x.Some? && x.value > c
  }

  /** C comparison `x >= c` where `x` may be NaN: a NaN compares false. */
  predicate AtLeast(x: Option<real>, c: real) {
    x.Some? && x.value >= c
  }
}
