/** Optional values: `None` stands for Python's implicit `None` return. */
module Wrappers {

  datatype Option<+T> = None | Some(value: T)
}
