/** The optional-value datatype used for values a Python attribute lookup or
    conversion may fail to produce. */
module Wrappers {

  datatype Option<+T> = None | Some(value: T)

}
