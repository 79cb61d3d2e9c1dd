/** Option and Result, the shapes of the source's `Option<T>` and `Result<T, Error>`. */
module Wrappers {

  datatype Option<+T> = None | Some(value: T)

  /** The error classes that callers tell apart: `is_retryable` errors, and the others. */
  datatype Error = Retryable | Fatal

  datatype Result<+T> = Ok(value: T) | Err(error: Error)

  /** Statement number `k` of a component fails if `faults(k)`; some statement from `from` on, before `to`, failed. */
  ghost predicate FaultIn(faults: nat -> bool, from: nat, to: nat) {
    exists k :: from <= k < to && faults(k)
  }

  /** The number that a string of digits stands for. */
  function NumberOf(s: string): int {
    if s == [] then 0 else 10 * NumberOf(s[..|s| - 1]) + (s[|s| - 1] as int - '0' as int)
  }
}
