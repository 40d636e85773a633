/** The optional value returned by the searches of the extractor, where the
    JavaScript code gets `null` or `-1` from a failed match. */
module Wrappers {

  datatype Option<+T> = None | Some(value: T)
}
