// Time, shared by every L6 component.
//
// All stamps are whole microseconds of the one monotonic clock that the
// supervisor and its child share.

module Timing {
  const MILLISECOND := 1000
  const SECOND := 1000 * MILLISECOND

  // Lease scheduling.
  const LEASE := 1 * SECOND
  const LEASE_SLACK := 1050 * MILLISECOND
  const CHECK_INTERVAL := 250 * MILLISECOND
  const BEAT_INTERVAL := 250 * MILLISECOND

  // Detection limits.
  const HEARTBEAT_LIMIT := 2 * SECOND
  const WORK_LIMIT := 5 * SECOND
  const WORK_CONFIRMATION := 200 * MILLISECOND
  const STAMP_TOLERANCE := 50 * MILLISECOND

  // Phase budgets.
  const CLOSE_ACK_BUDGET := 250 * MILLISECOND
  const DRAIN_BUDGET := 1 * SECOND
  const TERMINATE_BUDGET := 650 * MILLISECOND
  const KILL_REAP_BUDGET := 350 * MILLISECOND
  const STARTUP_BUDGET := 4 * SECOND
  const PROBE_BUDGET := 3500 * MILLISECOND
  const OPEN_BUDGET := 250 * MILLISECOND
  const RECOVERY_BUDGET := 12 * SECOND

  const MAX_RECOVERIES := 2
}
