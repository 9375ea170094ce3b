/** The optional value used wherever the program's `TryParse` calls or
    lookups can fail. */
module Wrappers {

  datatype Option<+T> = None | Some(value: T)
}
