/** The optional value used for store lookups that may miss and for parsers that may reject. */
module Wrappers {

  datatype Option<+T> = None | Some(value: T)

}
