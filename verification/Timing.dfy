/** Time on the driver's monotonic clock, in nanoseconds since its epoch, and the protocol's timing constants. */
module Timing {

  const MS: nat := 1_000_000
  const SECOND: nat := 1_000 * MS

  const REKEY_TIMEOUT: nat := 5 * SECOND
  /** Exclusive upper bound, in milliseconds, of the jitter added to rekey timers. */
  const REKEY_TIMEOUT_JITTER_MAX_MS: nat := 334
  const REKEY_ATTEMPT_TIME: nat := 90 * SECOND
  const REKEY_AFTER_TIME: nat := 120 * SECOND
  const REJECT_AFTER_TIME: nat := 180 * SECOND
  const KEEPALIVE_TIMEOUT: nat := 10 * SECOND
  const REKEY_AFTER_TIME_RECEIVING: nat := REJECT_AFTER_TIME - KEEPALIVE_TIMEOUT - REKEY_TIMEOUT

  /** Time elapsed since `earlier`, or zero if `earlier` is later. */
  function Since(now: nat, earlier: nat): nat {
    if now >= earlier then now - earlier else 0
  }
}
