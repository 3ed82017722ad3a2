/** The optional-value datatype used for searches that may find nothing and
    for expansions that may not finish within their fuel. */
module Wrappers {

  datatype Option<+T> = None | Some(value: T)

}
