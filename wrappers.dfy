/** Shared optional-value type: `None` stands for the source's `null`/`undefined` "nothing". */
module Wrappers {

  datatype Option<+T> = None | Some(value: T)
}
