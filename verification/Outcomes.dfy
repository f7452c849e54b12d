/** Optional values, fallible results and database writes, shared by every component. */
module Outcomes {

  datatype Option<+T> = None | Some(value: T)

  /** What a database did with one statement, and whether it said so. */
  datatype Write = Acknowledged | Rejected | AppliedUnacknowledged

  datatype Result<+T, +E> = Ok(value: T) | Err(error: E)
}
