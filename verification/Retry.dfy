/** `retry_with_backoff`: the attempt loop. Whether the backoff still grants a delay is an input. */
module Retry {
  import opened Wrappers

  /** The most attempts that `max_retries` allows; the first one is always made. */
  function AttemptLimit(maxRetries: nat): nat {
    if maxRetries == 0 then 1 else maxRetries
  }

  /**
   `operation(k)` is the result of attempt `k`, `exhausted(k)` says that the backoff gives up after it.
   The answer is the last attempt's; all earlier ones failed, and a failure is returned only at the limit or
   when the backoff gave up, not earlier.
   */
  method RetryWithBackoff<T>(operation: nat -> Result<T>, exhausted: nat -> bool, maxRetries: nat)
    returns (r: Result<T>, attempts: nat)
    ensures 1 <= attempts <= AttemptLimit(maxRetries)
    ensures attempts == 1 || attempts <= maxRetries
    ensures r == operation(attempts - 1)
    ensures forall k: nat :: k < attempts - 1 ==> operation(k).Err? && !exhausted(k)
    ensures r.Err? ==> attempts == AttemptLimit(maxRetries) || exhausted(attempts - 1)
  {
    attempts := 0;
    while true
      invariant attempts == 0 || attempts < maxRetries
      invariant forall k: nat :: k < attempts ==> operation(k).Err? && !exhausted(k)
      decreases AttemptLimit(maxRetries) - attempts
    {
      attempts := attempts + 1;
      r := operation(attempts - 1);
      if r.Ok? {
        return;
      }
      if attempts >= maxRetries {
        return;
      }
      if exhausted(attempts - 1) {
        return;
      }
    }
  }
}
