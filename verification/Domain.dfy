/**
 The job record and its lifecycle states (backend/internal/domain/job/job.go).

 Ids stand for UUIDs, times are nanoseconds on one clock shared by the database
 and every node. Payload, tags, metadata and error texts are opaque to every
 transition and are not carried.
 */
module Domain {

  datatype Option<+T> = None | Some(value: T)

  type Id = nat
  type Time = int

  /** An INT column. */
  type Int32 = x: int | -0x8000_0000 <= x < 0x8000_0000

  const SECOND: int := 1_000_000_000
  const DAY: int := 24 * 60 * 60 * SECOND

  datatype Status =
    | Pending
    | Scheduled
    | Running
    | Succeeded
    | Failed
    | Dead
    | Cancelled

  datatype Strategy = Fixed | Linear | Exponential | Unknown

  /** A row of the jobs table. */
  datatype Job = Job(
    queue: Id,
    cronJob: Option<Id>,
    key: Option<string>,
    status: Status,
    priority: int,
    runAt: Time,
    maxRetries: Int32,
    attemptCount: nat,
    strategy: Strategy,
    retryDelaySec: Int32,
    timeoutSec: int,
    claimedBy: Option<Id>,
    claimedAt: Option<Time>,
    startedAt: Option<Time>,
    completedAt: Option<Time>)

  predicate IsTerminal(j: Job) {
    j.status == Succeeded || j.status == Dead || j.status == Cancelled
  }

  function Min(a: int, b: int): int {
    if a <= b then a else b
  }

  function Max(a: int, b: int): int {
    if a <= b then b else a
  }
}
