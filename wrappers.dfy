/** Optional values, used for results the source reports as "not accepted". */
module Wrappers {

  datatype Option<+T> = None | Some(value: T)

}
