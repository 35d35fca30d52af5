/** A result, or an exception that leaves what was committed in place. */
module Outcomes {
  datatype Outcome<+T> = Ok(value: T) | Raised
}
