/** An optional value: the model's stand-in for a JavaScript value that may be
    `null` or `undefined` (an absent storage record, a missing cursor link, a
    failed `find`). */
module Wrappers {

  datatype Option<+T> = None | Some(value: T)
}
