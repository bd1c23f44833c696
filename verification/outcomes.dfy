/**
 * How a converter call can end. Python raises IndexError on a subscript past
 * the end of the buffer and KeyError on a missing dictionary key; a loop that
 * stops advancing never returns at all.
 */
module Outcomes {

  datatype Fault = IndexError | KeyError

  datatype Outcome<T> = Ok(value: T) | Raised(fault: Fault) | Hangs
}
