/** Small value wrappers shared by the other modules. */
module Wrappers {

  /** A value that may be absent (`undefined` / `null` in the site's code). */
  datatype Option<+T> = None | Some(value: T)
}
