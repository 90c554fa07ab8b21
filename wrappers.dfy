/** Optional values, used wherever the agent's Go code returns nil or an error. */
module Wrappers {

  datatype Option<+T> = None | Some(value: T)
}
