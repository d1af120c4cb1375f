/** Failure values shared by the model: the exceptions the C# code can raise, and small wrappers. */
module Outcomes {

  /** The exceptions the modelled code can throw. */
  datatype Fault =
    | KeyNotFound(key: int)        // a hash that is not in a dictionary
    | IndexOutOfRange(index: int)  // an array or list index outside its bounds
    | NullReference                // a member read through an empty slot
    | DuplicateKey(key: int)       // ToDictionary meeting the same key twice

  /** A value, or the exception raised while computing it. */
  datatype Result<+T> = Ok(value: T) | Err(fault: Fault)

  /** The outcome of an operation that returns nothing. */
  datatype Status = Completed | Failed(fault: Fault)

  datatype Option<+T> = None | Some(value: T)
}
