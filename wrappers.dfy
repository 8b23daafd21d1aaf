/** Optional values: `None` stands for JavaScript's `undefined`/`null` (an absent
    query parameter, body field, header or date). */
module Wrappers {

  datatype Option<+T> = None | Some(value: T)
}
