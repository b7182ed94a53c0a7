/** The optional value used wherever the plugin tests a JavaScript value for
    presence (`undefined`, a failed regular-expression match). */
module Wrappers {

  datatype Option<+T> = None | Some(value: T)
}
