/** Failure-carrying values shared by the model. */
module Wrappers {

  /** Python's `None` next to a real value. */
  datatype Option<+T> = None | Some(value: T)

  /** The exceptions the conversion helpers raise. */
  datatype Error =
    | NotAList          // `from_list` given a truthy value that is not a list
    | NotAPair          // `to_list` reached a value that is neither EMPTY nor a Pair
    | NotIterable       // `to_list` tried to iterate an element that is not iterable
    | NoRightComponent  // `to_integer` asked `.right` of a value that is not a Pair
    | NoVariables       // `result()` indexed the empty list of results

  /** A value, or the exception raised instead of returning one. */
  datatype Result<+T> = Ok(value: T) | Err(error: Error)
}
