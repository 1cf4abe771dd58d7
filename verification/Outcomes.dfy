/** Optional values, used wherever the repository returns `None` or raises. */
module Outcomes {

  datatype Option<+T> = None | Some(value: T)

}
