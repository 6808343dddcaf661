/** The optional value used throughout the model; `None` stands for a missing
    value, or for a JavaScript operation that throws or yields NaN where that
    is what the caller tests for. */
module Wrappers {

  datatype Option<+T> = None | Some(value: T)
}
