/** The optional-value datatype used for props that may be absent and for the
    optional `filter` parameter of a navigation. */
module Wrappers {

  datatype Option<+T> = None | Some(value: T)
}
