/**
 Per-status row counts: GetStats of backend/internal/repository/postgres/queue.go,
 and what each bulk statement does to them.
 */
module Stats {
  import opened Domain
  import opened Support
  import opened Store

  datatype QueueStats = QueueStats(
    pending: nat, scheduled: nat, running: nat, succeeded: nat, failed: nat, dead: nat, cancelled: nat)

  function RowsOf(t: Table, queue: Id): set<Id> {
    set id | id in t && t[id].queue == queue
  }

  function Having(t: Table, queue: Id, status: Status): set<Id> {
    set id | id in t && t[id].queue == queue && t[id].status == status
  }

  function Count(t: Table, queue: Id, status: Status): nat {
    |Having(t, queue, status)|
  }

  /** Rows in a status over all queues. */
  function Total(t: Table, status: Status): nat {
    |InStatus(t, status)|
  }

  function InStatus(t: Table, status: Status): set<Id> {
    set id | id in t && t[id].status == status
  }

  /** The share of a statement's affected rows that belongs to one queue. */
  function HitsIn(t: Table, op: Op, queue: Id): set<Id> {
    set id | id in Hits(t, op) && t[id].queue == queue
  }

  /** The aggregate query's seven filters, on one more row. */
  function CountRow(s: QueueStats, j: Job, queue: Id): QueueStats {
    if j.queue != queue then s
    else
      match j.status
      case Pending => s.(pending := s.pending + 1)
      case Scheduled => s.(scheduled := s.scheduled + 1)
      case Running => s.(running := s.running + 1)
      case Succeeded => s.(succeeded := s.succeeded + 1)
      case Failed => s.(failed := s.failed + 1)
      case Dead => s.(dead := s.dead + 1)
      case Cancelled => s.(cancelled := s.cancelled + 1)
  }

  function Field(s: QueueStats, status: Status): nat {
    match status
    case Pending => s.pending
    case Scheduled => s.scheduled
    case Running => s.running
    case Succeeded => s.succeeded
    case Failed => s.failed
    case Dead => s.dead
    case Cancelled => s.cancelled
  }

  lemma CountRowField(s: QueueStats, j: Job, queue: Id)
    ensures forall st :: Field(CountRow(s, j, queue), st)
                         == Field(s, st) + if j.queue == queue && j.status == st then 1 else 0
  {
  }

  method GetStats(t: Table, queue: Id) returns (s: QueueStats)
    ensures s.pending == Count(t, queue, Pending) && s.scheduled == Count(t, queue, Scheduled)
    ensures s.running == Count(t, queue, Running) && s.succeeded == Count(t, queue, Succeeded)
    ensures s.failed == Count(t, queue, Failed) && s.dead == Count(t, queue, Dead)
    ensures s.cancelled == Count(t, queue, Cancelled)
    ensures s.pending + s.scheduled + s.running + s.succeeded + s.failed + s.dead + s.cancelled
            == |RowsOf(t, queue)|
  {
    s := QueueStats(0, 0, 0, 0, 0, 0, 0);
    var seen: map<Id, Job> := map[];
    var todo := t.Keys;
    while todo != {}
      invariant seen.Keys !! todo && seen.Keys + todo == t.Keys
      invariant forall id :: id in seen ==> seen[id] == t[id]
      invariant forall status :: Field(s, status) == Count(seen, queue, status)
      decreases todo
    {
      var id :| id in todo;
      CountOneMore(seen, id, t[id], queue);
      CountRowField(s, t[id], queue);
      s := CountRow(s, t[id], queue);
      seen, todo := seen[id := t[id]], todo - {id};
    }
    assert seen == t;
    FieldsSum(t, queue, s);
  }

  lemma FieldsSum(t: Table, queue: Id, s: QueueStats)
    requires forall status :: Field(s, status) == Count(t, queue, status)
    ensures s.pending == Count(t, queue, Pending) && s.scheduled == Count(t, queue, Scheduled)
    ensures s.running == Count(t, queue, Running) && s.succeeded == Count(t, queue, Succeeded)
    ensures s.failed == Count(t, queue, Failed) && s.dead == Count(t, queue, Dead)
    ensures s.cancelled == Count(t, queue, Cancelled)
    ensures s.pending + s.scheduled + s.running + s.succeeded + s.failed + s.dead + s.cancelled
            == |RowsOf(t, queue)|
  {
    StatusesPartitionRows(t, queue);
    assert s.pending == Field(s, Pending) && s.scheduled == Field(s, Scheduled) && s.running == Field(s, Running);
    assert s.succeeded == Field(s, Succeeded) && s.failed == Field(s, Failed) && s.dead == Field(s, Dead);
    assert s.cancelled == Field(s, Cancelled);
  }

  lemma CountOneMore(t: Table, id: Id, j: Job, queue: Id)
    requires id !in t
    ensures forall st :: Count(t[id := j], queue, st)
                         == Count(t, queue, st) + if j.queue == queue && j.status == st then 1 else 0
  {
    forall st
      ensures Count(t[id := j], queue, st)
              == Count(t, queue, st) + if j.queue == queue && j.status == st then 1 else 0
    {
      OneMoreHaving(t, id, j, queue, st);
    }
  }

  lemma OneMoreHaving(t: Table, id: Id, j: Job, queue: Id, st: Status)
    requires id !in t
    ensures Having(t[id := j], queue, st)
            == Having(t, queue, st) + if j.queue == queue && j.status == st then {id} else {}
  {
  }

  /** The seven counts of a queue sum to its rows. */
  lemma StatusesPartitionRows(t: Table, queue: Id)
    ensures Count(t, queue, Pending) + Count(t, queue, Scheduled) + Count(t, queue, Running)
            + Count(t, queue, Succeeded) + Count(t, queue, Failed) + Count(t, queue, Dead)
            + Count(t, queue, Cancelled) == |RowsOf(t, queue)|
  {
    var p, s, r := Having(t, queue, Pending), Having(t, queue, Scheduled), Having(t, queue, Running);
    var w, f, d := Having(t, queue, Succeeded), Having(t, queue, Failed), Having(t, queue, Dead);
    var c := Having(t, queue, Cancelled);
    RowsAreOfSomeStatus(t, queue);
    SevenDisjoint(p, s, r, w, f, d, c);
  }

  lemma RowsAreOfSomeStatus(t: Table, queue: Id)
    ensures RowsOf(t, queue)
            == Having(t, queue, Pending) + Having(t, queue, Scheduled) + Having(t, queue, Running)
               + Having(t, queue, Succeeded) + Having(t, queue, Failed) + Having(t, queue, Dead)
               + Having(t, queue, Cancelled)
  {
    forall id | id in RowsOf(t, queue)
      ensures id in Having(t, queue, t[id].status)
    {
    }
  }

  lemma SevenDisjoint(a: set<Id>, b: set<Id>, c: set<Id>, d: set<Id>, e: set<Id>, f: set<Id>, g: set<Id>)
    requires a !! b !! c !! d !! e !! f !! g
    ensures |a + b + c + d + e + f + g| == |a| + |b| + |c| + |d| + |e| + |f| + |g|
  {
    assert |a + b| == |a| + |b|;
    assert |a + b + c| == |a + b| + |c|;
    assert |a + b + c + d| == |a + b + c| + |d|;
    assert |a + b + c + d + e| == |a + b + c + d| + |e|;
    assert |a + b + c + d + e + f| == |a + b + c + d + e| + |f|;
  }

  /**
   A statement that takes all its rows from one status to another moves exactly its
   affected rows, queue by queue and in total, and leaves every other count alone.
   */
  lemma MovesCounts(t: Table, op: Op, from: Status, to: Status)
    requires !op.Create? && from != to
    requires forall id :: id in Hits(t, op) ==> t[id].status == from && Assign(op, t[id]).status == to
    ensures var u := Apply(t, op);
            && (forall q :: Count(u, q, from) == Count(t, q, from) - |HitsIn(t, op, q)|)
            && (forall q :: Count(u, q, to) == Count(t, q, to) + |HitsIn(t, op, q)|)
            && (forall q, st :: st != from && st != to ==> Count(u, q, st) == Count(t, q, st))
            && Total(u, from) == Total(t, from) - |Hits(t, op)|
            && Total(u, to) == Total(t, to) + |Hits(t, op)|
            && forall st :: st != from && st != to ==> Total(u, st) == Total(t, st)
  {
    var u, hits := Apply(t, op), Hits(t, op);
    assert Moved(t, u, hits, from, to);
    forall q
      ensures Count(u, q, from) == Count(t, q, from) - |HitsIn(t, op, q)|
      ensures Count(u, q, to) == Count(t, q, to) + |HitsIn(t, op, q)|
    {
      QueueLoses(t, u, hits, q, from, to);
      QueueGains(t, u, hits, q, from, to);
      assert HitsIn(t, op, q) == InQueue(t, hits, q);
    }
    OthersStay(t, u, hits, from, to);
    TotalLoses(t, u, hits, from, to);
    TotalGains(t, u, hits, from, to);
  }

  /** u is t with the status of the hits, all in `from`, set to `to`; queues stay. */
  ghost predicate Moved(t: Table, u: Table, hits: set<Id>, from: Status, to: Status) {
    && u.Keys == t.Keys && hits <= t.Keys && from != to
    && (forall id :: id in t ==> u[id].queue == t[id].queue)
    && (forall id :: id in t ==> u[id].status == if id in hits then to else t[id].status)
    && (forall id :: id in hits ==> t[id].status == from)
  }

  function InQueue(t: Table, ids: set<Id>, queue: Id): set<Id>
    requires ids <= t.Keys
  {
    set id | id in ids && t[id].queue == queue
  }

  lemma OthersStay(t: Table, u: Table, hits: set<Id>, from: Status, to: Status)
    requires Moved(t, u, hits, from, to)
    ensures forall q, st :: st != from && st != to ==> Count(u, q, st) == Count(t, q, st)
    ensures forall st :: st != from && st != to ==> Total(u, st) == Total(t, st)
  {
    forall q, st | st != from && st != to
      ensures Count(u, q, st) == Count(t, q, st)
    {
      assert Having(u, q, st) == Having(t, q, st);
    }
    forall st | st != from && st != to
      ensures Total(u, st) == Total(t, st)
    {
      assert InStatus(u, st) == InStatus(t, st);
    }
  }

  lemma QueueLoses(t: Table, u: Table, hits: set<Id>, q: Id, from: Status, to: Status)
    requires Moved(t, u, hits, from, to)
    ensures Count(u, q, from) == Count(t, q, from) - |InQueue(t, hits, q)|
  {
    RemovedSize(Having(t, q, from), InQueue(t, hits, q), Having(u, q, from));
  }

  lemma QueueGains(t: Table, u: Table, hits: set<Id>, q: Id, from: Status, to: Status)
    requires Moved(t, u, hits, from, to)
    ensures Count(u, q, to) == Count(t, q, to) + |InQueue(t, hits, q)|
  {
    AddedSize(Having(t, q, to), InQueue(t, hits, q), Having(u, q, to));
  }

  lemma TotalLoses(t: Table, u: Table, hits: set<Id>, from: Status, to: Status)
    requires Moved(t, u, hits, from, to)
    ensures Total(u, from) == Total(t, from) - |hits|
  {
    RemovedSize(InStatus(t, from), hits, InStatus(u, from));
  }

  lemma TotalGains(t: Table, u: Table, hits: set<Id>, from: Status, to: Status)
    requires Moved(t, u, hits, from, to)
    ensures Total(u, to) == Total(t, to) + |hits|
  {
    AddedSize(InStatus(t, to), hits, InStatus(u, to));
  }

  /** Promoting: scheduled loses, and pending gains, exactly the returned count. */
  lemma PromoteMoves(t: Table, now: Time)
    ensures var u, n := Apply(t, Promote(now)), |Hits(t, Promote(now))|;
            && Total(u, Scheduled) == Total(t, Scheduled) - n
            && Total(u, Pending) == Total(t, Pending) + n
            && forall st :: st != Scheduled && st != Pending ==> Total(u, st) == Total(t, st)
  {
    MovesCounts(t, Promote(now), Scheduled, Pending);
  }

  /** Reclaiming: running loses, and pending gains, exactly the returned count. */
  lemma ReclaimMoves(t: Table, visibility: int, now: Time)
    ensures var op := Reclaim(visibility, now);
            var u, n := Apply(t, op), |Hits(t, op)|;
            && Total(u, Running) == Total(t, Running) - n
            && Total(u, Pending) == Total(t, Pending) + n
            && forall st :: st != Running && st != Pending ==> Total(u, st) == Total(t, st)
  {
    MovesCounts(t, Reclaim(visibility, now), Running, Pending);
  }

  /** A claim moves only its own queue's counts, by the number of claimed jobs. */
  lemma ClaimMoves(t: Table, worker: Id, ids: set<Id>, at: Time, queue: Id)
    requires forall id :: id in ids ==> id in t && Eligible(t[id], queue, at)
    ensures var u := Apply(t, Claim(worker, ids, at));
            && Count(u, queue, Pending) == Count(t, queue, Pending) - |ids|
            && Count(u, queue, Running) == Count(t, queue, Running) + |ids|
            && (forall st :: st != Pending && st != Running ==> Count(u, queue, st) == Count(t, queue, st))
            && forall q, st :: q != queue ==> Count(u, q, st) == Count(t, q, st)
  {
    var op := Claim(worker, ids, at);
    MovesCounts(t, op, Pending, Running);
    assert HitsIn(t, op, queue) == ids;
    forall q, st | q != queue
      ensures Count(Apply(t, op), q, st) == Count(t, q, st)
    {
      assert HitsIn(t, op, q) == {};
    }
  }

  /** No statement but a claim raises a queue's running count. */
  lemma OnlyClaimsRun(t: Table, op: Op, queue: Id)
    requires Issuable(t, op) && !op.Claim?
    ensures Count(Apply(t, op), queue, Running) <= Count(t, queue, Running)
  {
    StepKeepsRows(t, op);
    assert Having(Apply(t, op), queue, Running) <= Having(t, queue, Running);
    SubsetSize(Having(Apply(t, op), queue, Running), Having(t, queue, Running));
  }

  // ----- Sums over queues ----------------------------------------------------

  ghost function Pick(queues: set<Id>): (q: Id)
    requires queues != {}
    ensures q in queues
  {
    var q :| q in queues; q
  }

  ghost function SumOverQueues(t: Table, queues: set<Id>, status: Status): nat {
    if queues == {} then 0
    else var q := Pick(queues); Count(t, q, status) + SumOverQueues(t, queues - {q}, status)
  }

  /** The per-queue counts of GetStats, summed over the queues, are the totals above. */
  lemma {:induction false} QueueCountsSumToTotal(t: Table, queues: set<Id>, status: Status)
    requires forall id :: id in t ==> t[id].queue in queues
    ensures SumOverQueues(t, queues, status) == Total(t, status)
  {
    SumIsSelection(t, queues, status);
    assert Selected(t, queues, status) == InStatus(t, status);
  }

  ghost function Selected(t: Table, queues: set<Id>, status: Status): set<Id> {
    set id | id in t && t[id].queue in queues && t[id].status == status
  }

  lemma {:induction false} SumIsSelection(t: Table, queues: set<Id>, status: Status)
    ensures SumOverQueues(t, queues, status) == |Selected(t, queues, status)|
    decreases queues
  {
    if queues == {} {
      assert Selected(t, queues, status) == {};
    } else {
      SumIsSelection(t, queues - {Pick(queues)}, status);
      SelectedSplits(t, queues, Pick(queues), status);
    }
  }

  lemma SelectedSplits(t: Table, queues: set<Id>, q: Id, status: Status)
    requires q in queues
    ensures |Selected(t, queues, status)| == Count(t, q, status) + |Selected(t, queues - {q}, status)|
  {
    AddedSize(Selected(t, queues - {q}, status), Having(t, q, status), Selected(t, queues, status));
  }
}
