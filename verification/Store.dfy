/**
 The jobs table as a value, and the SQL statements of
 backend/internal/repository/postgres/job.go as functions on it. Each UPDATE is
 given by its WHERE clause and its SET clause. The statements take the current
 time as an argument; NOW() inside a claim is the time its transaction began.
 */
module Store {
  import opened Domain
  import opened Support

  type Table = map<Id, Job>

  datatype Op =
    | Create(id: Id, job: Job)
    | Claim(worker: Id, ids: set<Id>, at: Time)
    | MarkSucceeded(id: Id, at: Time)
    | MarkDead(id: Id, at: Time)
    | ScheduleRetry(id: Id, runAt: Time, attempt: nat)
    | Cancel(id: Id)
    | Promote(now: Time)
    | Reclaim(visibility: int, now: Time)

  /** Whole seconds of a duration in nanoseconds, truncated toward zero. */
  function WholeSeconds(d: int): int {
    if d >= 0 then d / SECOND else -(-d / SECOND)
  }

  /** The fraction of a second is cut off, for negative durations too. */
  lemma WholeSecondsTruncate(d: int)
    ensures d >= 0 ==> WholeSeconds(d) * SECOND <= d < (WholeSeconds(d) + 1) * SECOND
    ensures d <= 0 ==> (WholeSeconds(d) - 1) * SECOND < d <= WholeSeconds(d) * SECOND
  {
  }

  /** The WHERE clause of the statement, for the row j stored under id. */
  predicate Where(op: Op, id: Id, j: Job) {
    match op
    case Create(_, _) => false
    case Claim(_, ids, _) => id in ids
    case MarkSucceeded(i, _) => id == i
    case MarkDead(i, _) => id == i
    case ScheduleRetry(i, _, _) => id == i
    case Cancel(i) => id == i && (j.status == Pending || j.status == Scheduled)
    case Promote(now) => j.status == Scheduled && j.runAt <= now
    case Reclaim(visibility, now) =>
      && j.status == Running
      && j.claimedAt.Some?
      && j.claimedAt.value < now - WholeSeconds(visibility) * SECOND
  }

  /** The SET clause of the statement. */
  function Assign(op: Op, j: Job): Job {
    match op
    case Create(_, _) => j
    case Claim(worker, _, at) =>
      j.(status := Running, claimedBy := Some(worker), claimedAt := Some(at), startedAt := Some(at))
    case MarkSucceeded(_, at) => j.(status := Succeeded, completedAt := Some(at))
    case MarkDead(_, at) =>
      j.(status := Dead, attemptCount := j.attemptCount + 1, completedAt := Some(at))
    case ScheduleRetry(_, runAt, attempt) =>
      j.(status := Pending, runAt := runAt, attemptCount := attempt, claimedBy := None, claimedAt := None)
    case Cancel(_) => j.(status := Cancelled)
    case Promote(_) => j.(status := Pending)
    case Reclaim(_, _) => j.(status := Pending, claimedBy := None, claimedAt := None)
  }

  predicate HasKey(t: Table, key: string) {
    exists id :: id in t && t[id].key == Some(key)
  }

  /** INSERT names no lifecycle column, so those start out null. */
  function NewRow(j: Job): Job {
    j.(claimedBy := None, claimedAt := None, startedAt := None, completedAt := None)
  }

  /** INSERT ... ON CONFLICT (idempotency_key) DO NOTHING; a repeated id is refused. */
  function Insert(t: Table, id: Id, j: Job): Table {
    if (j.key.Some? && HasKey(t, j.key.value)) || id in t then t else t[id := NewRow(j)]
  }

  function Apply(t: Table, op: Op): Table {
    if op.Create? then Insert(t, op.id, op.job)
    else map id | id in t :: if Where(op, id, t[id]) then Assign(op, t[id]) else t[id]
  }

  /** The rows the statement updates; their number is RowsAffected. */
  function Hits(t: Table, op: Op): set<Id> {
    set id | id in t && Where(op, id, t[id])
  }

  predicate Eligible(j: Job, queue: Id, now: Time) {
    j.queue == queue && j.status == Pending && j.runAt <= now
  }

  /**
   What the callers of a statement guarantee. A claim updates rows it has locked
   as eligible; a new job is pending or scheduled with no attempts. The final
   writes are unguarded: any id, from any process, at any moment.
   */
  predicate Issuable(t: Table, op: Op) {
    match op
    case Create(_, j) => (j.status == Pending || j.status == Scheduled) && j.attemptCount == 0
    case Claim(_, ids, at) => forall id :: id in ids ==> id in t && t[id].status == Pending && t[id].runAt <= at
    case _ => true
  }

  // ----- Runs ---------------------------------------------------------------

  function After(t: Table, ops: seq<Op>): Table
    decreases ops
  {
    if ops == [] then t else After(Apply(t, ops[0]), ops[1..])
  }

  predicate AllIssuable(t: Table, ops: seq<Op>)
    decreases ops
  {
    ops == [] || (Issuable(t, ops[0]) && AllIssuable(Apply(t, ops[0]), ops[1..]))
  }

  lemma {:induction false} ExecAppend(t: Table, a: seq<Op>, b: seq<Op>)
    ensures After(t, a + b) == After(After(t, a), b)
    ensures AllIssuable(t, a + b) <==> AllIssuable(t, a) && AllIssuable(After(t, a), b)
    decreases a
  {
    if a == [] {
      assert a + b == b;
    } else {
      assert (a + b)[0] == a[0] && (a + b)[1..] == a[1..] + b;
      ExecAppend(Apply(t, a[0]), a[1..], b);
    }
  }

  // ----- Row shape ----------------------------------------------------------

  /** Which columns a status fixes. */
  predicate Shape(j: Job) {
    && (j.status == Running ==>
          && j.claimedBy.Some? && j.claimedAt.Some?
          && j.startedAt == j.claimedAt && j.runAt <= j.claimedAt.value)
    && (j.status == Pending || j.status == Scheduled || j.status == Cancelled ==>
          j.claimedBy == None && j.claimedAt == None)
    && (j.status == Succeeded || j.status == Dead ==> j.completedAt.Some?)
    && j.status != Failed
  }

  /** Shape of every row, and idempotency keys unique among non-null keys. */
  ghost predicate Valid(t: Table) {
    && (forall id :: id in t ==> Shape(t[id]))
    && (forall a, b :: a in t && b in t && t[a].key.Some? && t[a].key == t[b].key ==> a == b)
  }

  /** The columns no statement writes after INSERT. */
  predicate SameIdentity(a: Job, b: Job) {
    && a.queue == b.queue && a.cronJob == b.cronJob && a.key == b.key
    && a.priority == b.priority && a.maxRetries == b.maxRetries && a.strategy == b.strategy
    && a.retryDelaySec == b.retryDelaySec && a.timeoutSec == b.timeoutSec
  }

  lemma StepKeepsShape(t: Table, op: Op)
    requires Valid(t) && Issuable(t, op)
    ensures Valid(Apply(t, op))
  {
    var u := Apply(t, op);
    if op.Create? {
      assert u == t || u == t[op.id := NewRow(op.job)];
    } else {
      forall id | id in u
        ensures Shape(u[id])
      {
        assert Shape(t[id]);
      }
      forall a, b | a in u && b in u && u[a].key.Some? && u[a].key == u[b].key
        ensures a == b
      {
        assert t[a].key == u[a].key && t[b].key == u[b].key;
      }
    }
  }

  /** One statement: nothing disappears, identities stay, `scheduled` is not entered. */
  lemma StepKeepsRows(t: Table, op: Op)
    requires Issuable(t, op)
    ensures t.Keys <= Apply(t, op).Keys
    ensures forall id :: id in t ==> SameIdentity(t[id], Apply(t, op)[id])
    ensures forall id :: id in t && Apply(t, op)[id].status == Scheduled ==> t[id].status == Scheduled
    ensures forall id :: id in t && Apply(t, op)[id].status == Running && t[id].status != Running ==>
                           op.Claim? && t[id].status == Pending
  {
  }

  /** The statement can write the column of the row: only these statements can. */
  predicate WritesRunAt(op: Op, id: Id) {
    op.ScheduleRetry? && op.id == id
  }

  predicate WritesAttempts(op: Op, id: Id) {
    (op.ScheduleRetry? || op.MarkDead?) && op.id == id
  }

  predicate WritesStarted(op: Op, id: Id) {
    op.Claim? && id in op.ids
  }

  predicate WritesCompleted(op: Op, id: Id) {
    (op.MarkSucceeded? || op.MarkDead?) && op.id == id
  }

  /** One statement leaves run_at, attempt_count, started_at and completed_at to those that set them. */
  lemma StepKeepsColumns(t: Table, op: Op, id: Id)
    requires id in t
    ensures id in Apply(t, op)
    ensures !WritesRunAt(op, id) ==> Apply(t, op)[id].runAt == t[id].runAt
    ensures !WritesAttempts(op, id) ==> Apply(t, op)[id].attemptCount == t[id].attemptCount
    ensures !WritesStarted(op, id) ==> Apply(t, op)[id].startedAt == t[id].startedAt
    ensures !WritesCompleted(op, id) ==> Apply(t, op)[id].completedAt == t[id].completedAt
  {
  }

  /**
   Over every run: run_at of a stored row changes only by a retry's write, its attempts
   only by that or by its death, started_at only by a claim, completed_at only by an end.
   */
  lemma {:induction false} RunsKeepColumns(t: Table, ops: seq<Op>, id: Id)
    requires id in t
    ensures id in After(t, ops)
    ensures (forall op :: op in ops ==> !WritesRunAt(op, id)) ==> After(t, ops)[id].runAt == t[id].runAt
    ensures (forall op :: op in ops ==> !WritesAttempts(op, id)) ==>
              After(t, ops)[id].attemptCount == t[id].attemptCount
    ensures (forall op :: op in ops ==> !WritesStarted(op, id)) ==> After(t, ops)[id].startedAt == t[id].startedAt
    ensures (forall op :: op in ops ==> !WritesCompleted(op, id)) ==>
              After(t, ops)[id].completedAt == t[id].completedAt
    decreases ops
  {
    if ops != [] {
      StepKeepsColumns(t, ops[0], id);
      RunsKeepColumns(Apply(t, ops[0]), ops[1..], id);
      assert forall op :: op in ops[1..] ==> op in ops;
    }
  }

  /** Every run, stale final writes included, keeps the row shapes and the unique keys. */
  lemma {:induction false} RunsKeepShape(t: Table, ops: seq<Op>)
    requires Valid(t) && AllIssuable(t, ops)
    ensures Valid(After(t, ops))
    decreases ops
  {
    if ops != [] {
      StepKeepsShape(t, ops[0]);
      RunsKeepShape(Apply(t, ops[0]), ops[1..]);
    }
  }

  /** Every run keeps every row and its identity, and never re-enters `scheduled`. */
  lemma {:induction false} RunsKeepRows(t: Table, ops: seq<Op>)
    requires AllIssuable(t, ops)
    ensures t.Keys <= After(t, ops).Keys
    ensures forall id :: id in t ==> SameIdentity(t[id], After(t, ops)[id])
    ensures forall id :: id in t && After(t, ops)[id].status == Scheduled ==> t[id].status == Scheduled
    decreases ops
  {
    if ops != [] {
      var u := Apply(t, ops[0]);
      StepKeepsRows(t, ops[0]);
      RunsKeepRows(u, ops[1..]);
      forall id | id in t
        ensures id in After(t, ops)
        ensures SameIdentity(t[id], After(t, ops)[id])
        ensures After(t, ops)[id].status == Scheduled ==> t[id].status == Scheduled
      {
        assert id in u && SameIdentity(t[id], u[id]);
      }
    }
  }
}
