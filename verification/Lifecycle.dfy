/**
 The life of jobs in a running system: any number of nodes claim, execute, crash and
 lose writes, while the reaper, the promoter and the API act on the same table. A
 claim is one step here; ClaimProtocol shows that its transaction is equivalent.

 The final write of an execution is unguarded, and so is the write that ends a manual
 retry, which reads the row first. Most properties therefore ask two things of a run:
 whenever the reaper acts, no execution is past the visibility timeout of its claim, and
 whenever a retry writes, the row is still as it needs to be. How much is asked of the
 row is a Care; for each, what it is exactly enough for is proved.
 */
module Lifecycle {
  import opened Backoff
  import opened Domain
  import opened Executor
  import opened Store

  /** An execution not yet over: the job as its claim read it, and when that claim committed. */
  datatype Execution = Execution(id: Id, worker: Id, claimedAt: Time, born: Time, snap: Job)

  /** What happened to a job so far; `first` is when its first claim committed. */
  datatype Ledger = Ledger(claims: nat, reclaims: nat, manual: nat, first: Time)

  /** What a manual retry that has yet to write has read. */
  datatype Read = Read(id: Id, attempts: nat)

  /** `retries` are the manual retries under way, by call. */
  datatype World = World(
    now: Time, table: Table, live: set<Execution>, ledger: map<Id, Ledger>, retries: map<nat, Read>)

  datatype Event =
    | Tick(to: Time)
    | Enqueue(id: Id, job: Job)
    | ClaimJobs(worker: Id, ids: set<Id>, at: Time)
    | Finish(execution: Execution, outcome: Outcome, at: Time, draws: Draws)
    | LoseWrite(execution: Execution)
    | Crash(worker: Id)
    | CancelJob(id: Id)
    | ReadForRetry(call: nat, id: Id)
    | WriteRetry(call: nat, runAt: Time)
    | PromoteDue
    | Reap

  ghost predicate Enabled(w: World, e: Event) {
    match e
    case Tick(to) => w.now <= to
    case Enqueue(id, job) => id !in w.table && Issuable(w.table, Create(id, job))
    case ClaimJobs(worker, ids, at) => at <= w.now && Issuable(w.table, Claim(worker, ids, at))
    case Finish(x, _, at, _) => x in w.live && x.born <= at <= w.now
    case LoseWrite(x) => x in w.live
    case ReadForRetry(call, id) => call !in w.retries && id in w.table && Retryable(w.table[id])
    case WriteRetry(call, runAt) => call in w.retries && runAt <= w.now
    case _ => true
  }

  predicate Retryable(j: Job) {
    j.status == Failed || j.status == Dead
  }

  /** The event is the write of a manual retry of the job. */
  predicate WritesRetry(w: World, e: Event, id: Id) {
    e.WriteRetry? && e.call in w.retries && w.retries[e.call].id == id
  }

  /** The statement the event runs on the table, if any. */
  function Statement(visibility: int, w: World, e: Event): Option<Op> {
    match e
    case Enqueue(id, job) => Some(Create(id, job))
    case ClaimJobs(worker, ids, at) => Some(Claim(worker, ids, at))
    case Finish(x, outcome, at, draws) => FinalWrite(x.id, x.snap, outcome, at, draws)
    case CancelJob(id) => Some(Cancel(id))
    case WriteRetry(call, runAt) =>
      if call in w.retries then Some(ScheduleRetry(w.retries[call].id, runAt, w.retries[call].attempts)) else None
    case PromoteDue => Some(Promote(w.now))
    case Reap => Some(Reclaim(visibility, w.now))
    case _ => None
  }

  function NextTable(visibility: int, w: World, e: Event): Table {
    match Statement(visibility, w, e)
    case Some(op) => Apply(w.table, op)
    case None => w.table
  }

  ghost function NextLive(visibility: int, w: World, e: Event): set<Execution> {
    match e
    case ClaimJobs(worker, ids, at) =>
      w.live + set id | id in ids && id in w.table :: Execution(id, worker, at, w.now, w.table[id])
    case Finish(x, _, _, _) =>
      if Statement(visibility, w, e) == None then Without(w.live, x.worker) else w.live - {x}
    case LoseWrite(x) => w.live - {x}
    case Crash(worker) => Without(w.live, worker)
    case _ => w.live
  }

  ghost function Without(live: set<Execution>, worker: Id): set<Execution> {
    set x | x in live && x.worker != worker
  }

  function NextLedger(visibility: int, w: World, e: Event, id: Id): Ledger {
    if id !in w.table || id !in w.ledger then Ledger(0, 0, 0, 0)
    else
      var l := w.ledger[id];
      match e
      case ClaimJobs(_, ids, _) =>
        if id in ids then l.(claims := l.claims + 1, first := if l.claims == 0 then w.now else l.first) else l
      case Reap =>
        if Where(Reclaim(visibility, w.now), id, w.table[id]) then l.(reclaims := l.reclaims + 1) else l
      case WriteRetry(_, _) => if WritesRetry(w, e, id) then l.(manual := l.manual + 1) else l
      case _ => l
  }

  ghost function Step(visibility: int, w: World, e: Event): World {
    var table := NextTable(visibility, w, e);
    World(
      if e.Tick? then e.to else w.now,
      table,
      NextLive(visibility, w, e),
      map id | id in table :: NextLedger(visibility, w, e, id),
      NextRetries(w, e))
  }

  function NextRetries(w: World, e: Event): map<nat, Read> {
    match e
    case ReadForRetry(call, id) =>
      if id in w.table then w.retries[call := Read(id, w.table[id].attemptCount)] else w.retries
    case WriteRetry(call, _) => w.retries - {call}
    case _ => w.retries
  }

  ghost predicate Start(w: World) {
    w.table == map[] && w.live == {} && w.ledger == map[] && w.retries == map[]
  }

  /** Every unfinished execution is still within the visibility timeout of its claim. */
  ghost predicate Timely(visibility: int, w: World) {
    forall x :: x in w.live ==> w.now <= x.claimedAt + WholeSeconds(visibility) * SECOND
  }

  /**
   What the write of a manual retry is asked to find: that the job is not being executed;
   that, besides, the attempts it read make up for the claims; or that the row is still
   as it was read, dead and on those attempts.
   */
  datatype Care = Unexecuted | Accounted | StillDead

  ghost predicate Finds(care: Care, w: World, e: Event) {
    e.WriteRetry? && e.call in w.retries ==>
      var id, attempts := w.retries[e.call].id, w.retries[e.call].attempts;
      match care
      case Unexecuted => forall x :: x in w.live ==> x.id != id
      case Accounted =>
        && (forall x :: x in w.live ==> x.id != id)
        && (id in w.table ==> attempts == w.table[id].attemptCount + Unsettled(w.table[id]))
      case StillDead => id in w.table && Retryable(w.table[id]) && attempts == w.table[id].attemptCount
  }

  /** The claim that attempt_count does not count: of an execution under way or successful. */
  function Unsettled(j: Job): nat {
    if j.status == Running || j.status == Succeeded then 1 else 0
  }

  ghost predicate InTime(visibility: int, w: World, e: Event) {
    e.Reap? ==> Timely(visibility, w)
  }

  /** What an event needs that the code does not check. */
  ghost predicate Proper(care: Care, visibility: int, w: World, e: Event) {
    InTime(visibility, w, e) && Finds(care, w, e)
  }

  // ----- Ownership ------------------------------------------------------------------

  /** The row says the job is running, by that node, since that claim, on that attempt. */
  predicate Matches(t: Table, x: Execution) {
    && x.id in t && t[x.id].status == Running
    && t[x.id].claimedBy == Some(x.worker) && t[x.id].claimedAt == Some(x.claimedAt)
    && t[x.id].attemptCount == x.snap.attemptCount
  }

  /** Each job has at most one execution, and that is the one its row names. */
  ghost predicate Sole(w: World) {
    && (forall x, y :: x in w.live && y in w.live && x.id == y.id ==> x == y)
    && (forall x :: x in w.live ==> Matches(w.table, x))
  }

  /** No event touches the row of a live execution but its own final write. */
  lemma OwnedRowUntouched(visibility: int, w: World, e: Event, x: Execution)
    requires Sole(w) && Enabled(w, e) && Proper(Unexecuted, visibility, w, e) && x in w.live
    requires e.Finish? ==> e.execution != x
    ensures x.id in w.table && x.id in NextTable(visibility, w, e)
    ensures NextTable(visibility, w, e)[x.id] == w.table[x.id]
    ensures x.id in w.ledger ==> NextLedger(visibility, w, e, x.id) == w.ledger[x.id]
  {
    assert Matches(w.table, x);
    RowAfter(visibility, w, e, x.id);
    if e.Finish? {
      assert x.id != e.execution.id;
    }
  }

  /** What a reap finds overdue, or a retry's write finds executed, loses its row. */
  lemma ImproperStepDisowns(visibility: int, w: World, e: Event)
    requires Sole(w) && Enabled(w, e) && !Proper(Unexecuted, visibility, w, e)
    ensures !Sole(Step(visibility, w, e))
  {
    if e.Reap? {
      var x :| x in w.live && w.now > x.claimedAt + WholeSeconds(visibility) * SECOND;
      Disowned(visibility, w, e, x);
    } else {
      var x :| x in w.live && WritesRetry(w, e, x.id);
      Disowned(visibility, w, e, x);
    }
  }

  lemma Disowned(visibility: int, w: World, e: Event, x: Execution)
    requires Sole(w) && Enabled(w, e) && x in w.live
    requires (e.Reap? && w.now > x.claimedAt + WholeSeconds(visibility) * SECOND) || WritesRetry(w, e, x.id)
    ensures x in Step(visibility, w, e).live && !Matches(Step(visibility, w, e).table, x)
  {
    assert Matches(w.table, x);
    RowAfter(visibility, w, e, x.id);
    if e.Reap? {
      assert Where(Reclaim(visibility, w.now), x.id, w.table[x.id]);
    }
  }

  lemma OneOwnerKept(visibility: int, w: World, e: Event)
    requires Sole(w) && Enabled(w, e)
    ensures var live := NextLive(visibility, w, e);
            forall x, y :: x in live && y in live && x.id == y.id ==> x == y
  {
    var live := NextLive(visibility, w, e);
    forall x, y | x in live && y in live && x.id == y.id
      ensures x == y
    {
      if x !in w.live || y !in w.live {
        assert w.table[x.id].status == Pending;
        assert x in w.live ==> Matches(w.table, x);
        assert y in w.live ==> Matches(w.table, y);
      }
    }
  }

  /** An event leaves every execution sole exactly when it is proper. */
  lemma SoleKeptExactly(visibility: int, w: World, e: Event)
    requires Sole(w) && Enabled(w, e)
    ensures Sole(Step(visibility, w, e)) <==> Proper(Unexecuted, visibility, w, e)
  {
    var u := Step(visibility, w, e);
    if Proper(Unexecuted, visibility, w, e) {
      OneOwnerKept(visibility, w, e);
      forall x | x in u.live
        ensures Matches(u.table, x)
      {
        if x in w.live {
          assert Matches(w.table, x);
          OwnedRowUntouched(visibility, w, e, x);
        } else {
          assert e.ClaimJobs? && x.id in e.ids;
          RowAfter(visibility, w, e, x.id);
        }
      }
    } else {
      ImproperStepDisowns(visibility, w, e);
    }
  }

  // ----- The invariant ------------------------------------------------------------

  function Tries(j: Job): nat {
    Max(1, j.maxRetries)
  }

  /** Twice the least time from the first claim to the k-th retry becoming due. */
  function TwiceGap(strategy: Strategy, sec: nat, k: nat): nat {
    if k == 0 then 0 else TwiceGap(strategy, sec, k - 1) + TwiceLeast(strategy, sec, k)
  }

  predicate Counted(j: Job, l: Ledger) {
    && l.claims == j.attemptCount + l.reclaims + (if j.status == Running || j.status == Succeeded then 1 else 0)
    && j.attemptCount + (if j.status == Dead then 0 else 1) <= Tries(j) + l.manual
  }

  predicate Spaced(j: Job, l: Ledger) {
    j.retryDelaySec >= 0 && l.manual == 0 && j.status != Dead && j.attemptCount > 0 ==>
      2 * (j.runAt - l.first) >= TwiceGap(j.strategy, j.retryDelaySec, j.attemptCount)
  }

  ghost predicate RowOk(now: Time, j: Job, l: Ledger) {
    && Shape(j)
    && Counted(j, l)
    && Spaced(j, l)
    && (l.claims > 0 ==> l.first <= now)
    && (j.status == Running ==> j.claimedAt.value <= now && l.claims > 0)
  }

  /** The execution is the one the row says is running. */
  ghost predicate Owns(w: World, x: Execution) {
    && x.id in w.table && x.id in w.ledger
    && var j := w.table[x.id];
    && j.status == Running
    && j.claimedBy == Some(x.worker) && j.claimedAt == Some(x.claimedAt)
    && j.attemptCount == x.snap.attemptCount && j.runAt == x.snap.runAt && SameIdentity(j, x.snap)
    && x.claimedAt <= x.born <= w.now
    && w.ledger[x.id].first <= x.born
  }

  ghost predicate Inv(w: World) {
    && Valid(w.table)
    && w.ledger.Keys == w.table.Keys
    && (forall id :: id in w.table ==> RowOk(w.now, w.table[id], w.ledger[id]))
    && (forall x :: x in w.live ==> Owns(w, x))
    && (forall x, y :: x in w.live && y in w.live && x.id == y.id ==> x == y)
  }

  lemma StepKeepsInv(visibility: int, w: World, e: Event)
    requires Inv(w) && Enabled(w, e) && Proper(Accounted, visibility, w, e)
    ensures Inv(Step(visibility, w, e))
  {
    TableStaysValid(visibility, w, e);
    RowsKept(visibility, w, e);
    OwnersKept(visibility, w, e);
    InvIsSole(w);
    OneOwnerKept(visibility, w, e);
  }

  lemma TableStaysValid(visibility: int, w: World, e: Event)
    requires Valid(w.table) && Enabled(w, e)
    ensures Valid(NextTable(visibility, w, e))
  {
    if Statement(visibility, w, e).Some? {
      StepKeepsShape(w.table, Statement(visibility, w, e).value);
    }
  }

  lemma OwnersKept(visibility: int, w: World, e: Event)
    requires Inv(w) && Enabled(w, e) && Proper(Accounted, visibility, w, e)
    ensures forall x :: x in NextLive(visibility, w, e) ==> Owns(Step(visibility, w, e), x)
  {
    forall x | x in NextLive(visibility, w, e)
      ensures Owns(Step(visibility, w, e), x)
    {
      OwnerKept(visibility, w, e, x);
    }
  }

  lemma InvIsSole(w: World)
    requires Inv(w)
    ensures Sole(w)
  {
    forall x | x in w.live
      ensures Matches(w.table, x)
    {
      assert Owns(w, x);
    }
  }

  /** Ownership and both accounts survive an event exactly when it is proper and accounted for. */
  lemma InvKeptExactly(visibility: int, w: World, e: Event)
    requires Inv(w) && Enabled(w, e)
    ensures Inv(Step(visibility, w, e)) <==> Proper(Accounted, visibility, w, e)
  {
    InvIsSole(w);
    SoleKeptExactly(visibility, w, e);
    if Proper(Accounted, visibility, w, e) {
      StepKeepsInv(visibility, w, e);
    } else if Inv(Step(visibility, w, e)) {
      InvIsSole(Step(visibility, w, e));
      UnaccountedRetryShows(visibility, w, e);
    }
  }

  lemma UnaccountedRetryShows(visibility: int, w: World, e: Event)
    requires Inv(w) && Enabled(w, e) && e.WriteRetry? && w.retries[e.call].id in w.table
    requires w.retries[e.call].attempts
             != w.table[w.retries[e.call].id].attemptCount + Unsettled(w.table[w.retries[e.call].id])
    ensures !Inv(Step(visibility, w, e))
  {
    var id, u := w.retries[e.call].id, Step(visibility, w, e);
    RowAfter(visibility, w, e, id);
    assert RowOk(w.now, w.table[id], w.ledger[id]);
    assert !RowOk(u.now, u.table[id], u.ledger[id]);
  }

  lemma RowsKept(visibility: int, w: World, e: Event)
    requires Inv(w) && Enabled(w, e) && Finds(Accounted, w, e) && Valid(NextTable(visibility, w, e))
    ensures var u := Step(visibility, w, e);
            forall id :: id in u.table ==> RowOk(u.now, u.table[id], u.ledger[id])
  {
    var u := Step(visibility, w, e);
    forall id | id in u.table
      ensures RowOk(u.now, u.table[id], u.ledger[id])
    {
      assert Shape(u.table[id]);
      RowKept(visibility, w, e, id);
    }
  }

  /** A row after the event: rewritten if the event's statement hits it, else untouched. */
  lemma RowAfter(visibility: int, w: World, e: Event, id: Id)
    requires Enabled(w, e) && id in w.table
    ensures id in NextTable(visibility, w, e)
    ensures var op := Statement(visibility, w, e);
            NextTable(visibility, w, e)[id]
            == if op.Some? && Where(op.value, id, w.table[id]) then Assign(op.value, w.table[id]) else w.table[id]
  {
  }

  lemma RowKept(visibility: int, w: World, e: Event, id: Id)
    requires Inv(w) && Enabled(w, e) && Finds(Accounted, w, e) && id in NextTable(visibility, w, e)
    requires Shape(NextTable(visibility, w, e)[id])
    ensures RowOk(if e.Tick? then e.to else w.now, NextTable(visibility, w, e)[id], NextLedger(visibility, w, e, id))
  {
    if id !in w.table {
      assert e.Enqueue? && id == e.id;
      return;
    }
    assert RowOk(w.now, w.table[id], w.ledger[id]);
    if e.Finish? {
      FinishKeepsRows(visibility, w, e, id);
    } else if e.ClaimJobs? {
      RowAfter(visibility, w, e, id);
      if id in e.ids {
        ClaimKeepsRow(w.now, w.table[id], w.ledger[id], e.worker, e.at);
      }
    } else {
      RequeueKeepsRow(visibility, w, e, id);
    }
  }

  lemma FinishKeepsRows(visibility: int, w: World, e: Event, id: Id)
    requires Inv(w) && e.Finish? && Enabled(w, e) && id in w.table
    ensures id in NextTable(visibility, w, e)
    ensures Shape(NextTable(visibility, w, e)[id]) ==>
              RowOk(w.now, NextTable(visibility, w, e)[id], NextLedger(visibility, w, e, id))
  {
    RowAfter(visibility, w, e, id);
    if id == e.execution.id && Statement(visibility, w, e).Some? {
      FinishKeepsRow(w, e.execution, e.outcome, e.at, e.draws);
    } else {
      assert RowOk(w.now, w.table[id], w.ledger[id]);
    }
  }

  lemma ClaimKeepsRow(now: Time, j: Job, l: Ledger, worker: Id, at: Time)
    requires RowOk(now, j, l) && j.status == Pending && j.runAt <= at <= now
    ensures RowOk(now, Assign(Claim(worker, {}, at), j),
                  l.(claims := l.claims + 1, first := if l.claims == 0 then now else l.first))
  {
  }

  lemma RequeueKeepsRow(visibility: int, w: World, e: Event, id: Id)
    requires Enabled(w, e) && Finds(Accounted, w, e) && !e.Finish? && !e.ClaimJobs?
    requires id in w.table && id in w.ledger && RowOk(w.now, w.table[id], w.ledger[id])
    requires id in NextTable(visibility, w, e) && Shape(NextTable(visibility, w, e)[id])
    ensures RowOk(if e.Tick? then e.to else w.now, NextTable(visibility, w, e)[id], NextLedger(visibility, w, e, id))
  {
    RowAfter(visibility, w, e, id);
  }

  /** The final write moves a running row on by one attempt, and its next run by one delay. */
  lemma FinishKeepsRow(w: World, x: Execution, outcome: Outcome, at: Time, draws: Draws)
    requires Inv(w) && x in w.live && x.born <= at <= w.now
    requires FinalWrite(x.id, x.snap, outcome, at, draws).Some?
    ensures x.id in w.table && x.id in w.ledger
    ensures var j := Assign(FinalWrite(x.id, x.snap, outcome, at, draws).value, w.table[x.id]);
            Shape(j) ==> RowOk(w.now, j, w.ledger[x.id])
  {
    assert Owns(w, x);
    var j := w.table[x.id];
    assert RowOk(w.now, j, w.ledger[x.id]);
    if outcome == Failure && j.attemptCount + 1 < j.maxRetries && j.retryDelaySec >= 0 {
      DelayAtLeast(j.strategy, j.retryDelaySec, j.attemptCount + 1, draws);
    }
  }

  lemma OwnerKept(visibility: int, w: World, e: Event, x: Execution)
    requires Inv(w) && Enabled(w, e) && Proper(Accounted, visibility, w, e)
    requires x in NextLive(visibility, w, e)
    ensures Owns(Step(visibility, w, e), x)
  {
    if x in w.live {
      InvIsSole(w);
      assert Owns(w, x);
      if !e.Finish? || e.execution != x {
        OwnedRowUntouched(visibility, w, e, x);
      }
    } else {
      NewOwner(visibility, w, e, x);
    }
  }

  lemma NewOwner(visibility: int, w: World, e: Event, x: Execution)
    requires Inv(w) && Enabled(w, e) && x in NextLive(visibility, w, e) && x !in w.live
    ensures Owns(Step(visibility, w, e), x)
  {
    assert e.ClaimJobs? && x.id in e.ids;
    assert RowOk(w.now, w.table[x.id], w.ledger[x.id]);
    RowAfter(visibility, w, e, x.id);
  }

  // ----- Runs -----------------------------------------------------------------------

  ghost predicate Legal(visibility: int, w: World, es: seq<Event>)
    decreases es
  {
    es == [] || (Enabled(w, es[0]) && Legal(visibility, Step(visibility, w, es[0]), es[1..]))
  }

  ghost function Exec(visibility: int, w: World, es: seq<Event>): World
    decreases es
  {
    if es == [] then w else Exec(visibility, Step(visibility, w, es[0]), es[1..])
  }

  /** A run in which every event is proper. */
  ghost predicate ProperRun(care: Care, visibility: int, w: World, es: seq<Event>)
    decreases es
  {
    es == []
    || (&& Enabled(w, es[0]) && Proper(care, visibility, w, es[0])
        && ProperRun(care, visibility, Step(visibility, w, es[0]), es[1..]))
  }

  lemma {:induction false} RunsKeepInv(visibility: int, w: World, es: seq<Event>)
    requires Inv(w) && ProperRun(Accounted, visibility, w, es)
    ensures Inv(Exec(visibility, w, es))
    decreases es
  {
    if es != [] {
      StepKeepsInv(visibility, w, es[0]);
      RunsKeepInv(visibility, Step(visibility, w, es[0]), es[1..]);
    }
  }
}
