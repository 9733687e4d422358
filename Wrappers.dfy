/** The optional value used for the plugin's nullable pointers and optional results. */
module Wrappers {

  datatype Option<+T> = None | Some(value: T)
}
