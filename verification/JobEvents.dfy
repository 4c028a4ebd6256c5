/**
 What each event of Lifecycle does to one job's row, to the executions and to the job's
 ledger, said column by column and without the statements it is made of.
 */
module JobEvents {
  import opened Backoff
  import opened Domain
  import opened Executor
  import opened Lifecycle
  import opened LifecycleTheorems
  import opened Store

  // ----- The row --------------------------------------------------------------------------

  predicate Requeued(before: Job, after: Job, runAt: Time, attempts: nat) {
    after == before.(status := Pending, runAt := runAt, attemptCount := attempts, claimedBy := None, claimedAt := None)
  }

  /** The final write of the execution x on the row of its job. */
  predicate Ended(x: Execution, outcome: Outcome, at: Time, d: Draws, before: Job, after: Job) {
    match outcome
    case NoHandler => Died(before, after, at)
    case Success => after == before.(status := Succeeded, completedAt := Some(at))
    case Failure =>
      var next := x.snap.attemptCount + 1;
      if next >= x.snap.maxRetries then Died(before, after, at)
      else
        match Delay(ExecutorPolicy(x.snap.strategy, x.snap.retryDelaySec), next, d)
        case None => after == before
        case Some(delay) => Requeued(before, after, at + delay, next)
  }

  lemma FinishOnARow(visibility: int, w: World, e: Event, id: Id)
    requires Enabled(w, e) && e.Finish? && id in w.table
    ensures var t := NextTable(visibility, w, e);
            && id in t
            && (id != e.execution.id ==> t[id] == w.table[id])
            && (id == e.execution.id ==> Ended(e.execution, e.outcome, e.at, e.draws, w.table[id], t[id]))
  {
    RowAfter(visibility, w, e, id);
  }

  lemma ClaimOnARow(visibility: int, w: World, e: Event, id: Id)
    requires Enabled(w, e) && e.ClaimJobs? && id in w.table
    ensures var t := NextTable(visibility, w, e);
            && id in t
            && (id !in e.ids ==> t[id] == w.table[id])
            && (id in e.ids ==>
                  && Eligible(w.table[id], w.table[id].queue, e.at)
                  && t[id] == w.table[id].(status := Running, claimedBy := Some(e.worker), claimedAt := Some(e.at),
                                           startedAt := Some(e.at)))
  {
    RowAfter(visibility, w, e, id);
  }

  lemma OtherEventsOnARow(visibility: int, w: World, e: Event, id: Id)
    requires Enabled(w, e) && !e.Finish? && !e.ClaimJobs? && id in w.table
    ensures var t, j := NextTable(visibility, w, e), w.table[id];
            && id in t
            && match e
               case CancelJob(i) =>
                 t[id] == if id == i && (j.status == Pending || j.status == Scheduled)
                          then j.(status := Cancelled) else j
               case WriteRetry(call, runAt) =>
                 if w.retries[call].id == id then Requeued(j, t[id], runAt, w.retries[call].attempts) else t[id] == j
               case PromoteDue =>
                 t[id] == if j.status == Scheduled && j.runAt <= w.now then j.(status := Pending) else j
               case Reap =>
                 t[id] == if j.status == Running && j.claimedAt.Some?
                             && j.claimedAt.value < w.now - WholeSeconds(visibility) * SECOND
                          then j.(status := Pending, claimedBy := None, claimedAt := None) else j
               case _ => t[id] == j
  {
    RowAfter(visibility, w, e, id);
  }

  lemma EnqueueOnTheTable(visibility: int, w: World, e: Event)
    requires Enabled(w, e) && e.Enqueue?
    ensures var t := NextTable(visibility, w, e);
            t == if e.job.key.Some? && HasKey(w.table, e.job.key.value) then w.table
                 else w.table[e.id := e.job.(claimedBy := None, claimedAt := None, startedAt := None,
                                             completedAt := None)]
  {
  }

  /** A retry by hand keeps what it read until it writes; other retries under way are not touched. */
  lemma EventsOnRetries(visibility: int, w: World, e: Event)
    requires Enabled(w, e)
    ensures var u := Step(visibility, w, e);
            match e
            case ReadForRetry(call, id) => u.retries == w.retries[call := Read(id, w.table[id].attemptCount)]
            case WriteRetry(call, _) => u.retries == map c | c in w.retries && c != call :: w.retries[c]
            case _ => u.retries == w.retries
  {
  }

  /** The event may set run_at of the job: its execution has failed, or a retry by hand writes. */
  predicate MovesRunAt(w: World, e: Event, id: Id) {
    (e.Finish? && e.execution.id == id && e.outcome == Failure) || WritesRetry(w, e, id)
  }

  ghost predicate NeverMovesRunAt(visibility: int, w: World, es: seq<Event>, id: Id)
    decreases es
  {
    es == [] || (!MovesRunAt(w, es[0], id) && NeverMovesRunAt(visibility, Step(visibility, w, es[0]), es[1..], id))
  }

  lemma RunAtStaysInAStep(visibility: int, w: World, e: Event, id: Id)
    requires Enabled(w, e) && id in w.table && !MovesRunAt(w, e, id)
    ensures id in NextTable(visibility, w, e) && NextTable(visibility, w, e)[id].runAt == w.table[id].runAt
  {
    if e.Finish? {
      FinishOnARow(visibility, w, e, id);
    } else if e.ClaimJobs? {
      ClaimOnARow(visibility, w, e, id);
    } else {
      OtherEventsOnARow(visibility, w, e, id);
    }
  }

  /** In any run run_at of a job changes only by the write of a failed execution or of a retry by hand. */
  lemma {:induction false} RunAtStays(visibility: int, w: World, es: seq<Event>, id: Id)
    requires Legal(visibility, w, es) && id in w.table && NeverMovesRunAt(visibility, w, es, id)
    ensures id in Exec(visibility, w, es).table
    ensures Exec(visibility, w, es).table[id].runAt == w.table[id].runAt
    decreases es
  {
    if es != [] {
      RunAtStaysInAStep(visibility, w, es[0], id);
      RunAtStays(visibility, Step(visibility, w, es[0]), es[1..], id);
    }
  }

  // ----- The executions ---------------------------------------------------------------------

  /** Computing the backoff of the failed execution panics. */
  predicate PanicsOn(e: Event) {
    && e.Finish? && e.outcome == Failure && e.execution.snap.attemptCount + 1 < e.execution.snap.maxRetries
    && Delay(ExecutorPolicy(e.execution.snap.strategy, e.execution.snap.retryDelaySec),
             e.execution.snap.attemptCount + 1, e.draws) == None
  }

  /**
   Only a claim starts executions, one for each claimed job as it was read. An execution
   ends by its own final or lost write, or with its node, by a crash or a panic.
   */
  lemma EventsOnExecutions(visibility: int, w: World, e: Event, x: Execution)
    requires Enabled(w, e)
    ensures x in w.live ==>
              (x !in NextLive(visibility, w, e) <==>
                 || ((e.Finish? || e.LoseWrite?) && e.execution == x)
                 || (e.Crash? && e.worker == x.worker)
                 || (PanicsOn(e) && e.execution.worker == x.worker))
    ensures x !in w.live ==>
              (x in NextLive(visibility, w, e) <==>
                 && e.ClaimJobs? && x.id in e.ids && x.worker == e.worker && x.claimedAt == e.at && x.born == w.now
                 && x.snap == w.table[x.id])
  {
    if e.ClaimJobs? && x.id in e.ids && x.id in w.table {
      assert x == Execution(x.id, e.worker, e.at, w.now, w.table[x.id]) <==>
             x.worker == e.worker && x.claimedAt == e.at && x.born == w.now && x.snap == w.table[x.id];
    }
  }

  // ----- The ledger -------------------------------------------------------------------------

  ghost function ReclaimsIn(visibility: int, w: World, es: seq<Event>, id: Id): nat
    decreases es
  {
    if es == [] then 0
    else (if es[0] == Reap && id in w.table && Overdue(visibility, w, w.table[id]) then 1 else 0)
         + ReclaimsIn(visibility, Step(visibility, w, es[0]), es[1..], id)
  }

  predicate Overdue(visibility: int, w: World, j: Job) {
    j.status == Running && j.claimedAt.Some? && w.now > j.claimedAt.value + WholeSeconds(visibility) * SECOND
  }

  ghost function RetriesIn(visibility: int, w: World, es: seq<Event>, id: Id): nat
    decreases es
  {
    if es == [] then 0
    else (if WritesRetry(w, es[0], id) && id in w.table then 1 else 0)
         + RetriesIn(visibility, Step(visibility, w, es[0]), es[1..], id)
  }

  /** When a run claims the job for the first time. */
  ghost function FirstClaim(visibility: int, w: World, es: seq<Event>, id: Id): Time
    decreases es
  {
    if es == [] || (es[0].ClaimJobs? && id in es[0].ids) then w.now
    else FirstClaim(visibility, Step(visibility, w, es[0]), es[1..], id)
  }

  function LedgerOf(w: World, id: Id): Ledger {
    if id in w.table && id in w.ledger then w.ledger[id] else Ledger(0, 0, 0, 0)
  }

  lemma LedgerStep(visibility: int, w: World, e: Event, id: Id)
    requires Enabled(w, e) && w.ledger.Keys == w.table.Keys
    ensures var u := Step(visibility, w, e);
            var l, m := LedgerOf(w, id), LedgerOf(u, id);
            && u.ledger.Keys == u.table.Keys
            && m.claims == l.claims + (if e.ClaimJobs? && id in e.ids then 1 else 0)
            && m.reclaims == l.reclaims
                             + (if e == Reap && id in w.table && Overdue(visibility, w, w.table[id]) then 1 else 0)
            && m.manual == l.manual + (if WritesRetry(w, e, id) && id in w.table then 1 else 0)
            && (l.claims > 0 ==> m.first == l.first)
            && (l.claims == 0 && e.ClaimJobs? && id in e.ids ==> m.first == w.now)
  {
    if id in w.table {
      RowAfter(visibility, w, e, id);
    }
  }

  /** The ledger says what happened: the claims, reclaims and retries of the run, and its first claim. */
  lemma {:induction false} LedgerTellsTheRun(visibility: int, w: World, es: seq<Event>, id: Id)
    requires Legal(visibility, w, es) && w.ledger.Keys == w.table.Keys
    ensures var l, m := LedgerOf(w, id), LedgerOf(Exec(visibility, w, es), id);
            && m.claims == l.claims + ClaimsIn(es, id)
            && m.reclaims == l.reclaims + ReclaimsIn(visibility, w, es, id)
            && m.manual == l.manual + RetriesIn(visibility, w, es, id)
            && (l.claims > 0 ==> m.first == l.first)
            && (l.claims == 0 && m.claims > 0 ==> m.first == FirstClaim(visibility, w, es, id))
    decreases es
  {
    if es != [] {
      LedgerStep(visibility, w, es[0], id);
      LedgerTellsTheRun(visibility, Step(visibility, w, es[0]), es[1..], id);
    }
  }
}
