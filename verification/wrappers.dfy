/** Optional value, used where the dashboard has "nothing yet". */
module Wrappers {

  datatype Option<+T> = None | Some(value: T)
}
