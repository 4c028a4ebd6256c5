/** What Lifecycle's invariant means for the runs of the system. */
module LifecycleTheorems {
  import opened Backoff
  import opened Domain
  import opened Executor
  import opened Lifecycle
  import opened Store

  // ----- Ownership --------------------------------------------------------------------

  ghost predicate AlwaysSole(visibility: int, w: World, es: seq<Event>)
    decreases es
  {
    Sole(w) && (es == [] || AlwaysSole(visibility, Step(visibility, w, es[0]), es[1..]))
  }

  /**
   In every world of a run each execution is the only one of its job and the one its row
   names, if and only if no reap of the run finds an execution overdue and no retry's
   write finds its job being executed.
   */
  lemma SoleExactlyIfProper(visibility: int, w: World, es: seq<Event>)
    requires Start(w) && Legal(visibility, w, es)
    ensures AlwaysSole(visibility, w, es) <==> ProperRun(Unexecuted, visibility, w, es)
  {
    StaysSoleExactly(visibility, w, es);
  }

  lemma {:induction false} StaysSoleExactly(visibility: int, w: World, es: seq<Event>)
    requires Sole(w) && Legal(visibility, w, es)
    ensures AlwaysSole(visibility, w, es) <==> ProperRun(Unexecuted, visibility, w, es)
    decreases es
  {
    if es != [] {
      SoleKeptExactly(visibility, w, es[0]);
      if Proper(Unexecuted, visibility, w, es[0]) {
        StaysSoleExactly(visibility, Step(visibility, w, es[0]), es[1..]);
      }
    }
  }

  /** Some retry by hand of the job writes during the run. */
  ghost predicate RetriesByHand(visibility: int, w: World, es: seq<Event>, id: Id)
    decreases es
  {
    es != [] && (WritesRetry(w, es[0], id) || RetriesByHand(visibility, Step(visibility, w, es[0]), es[1..], id))
  }

  /** A finished row is written by a proper event exactly if that is a retry by hand. */
  lemma FinishedRowStays(visibility: int, w: World, e: Event, id: Id)
    requires Sole(w) && Enabled(w, e) && id in w.table && IsTerminal(w.table[id])
    ensures id in NextTable(visibility, w, e)
    ensures NextTable(visibility, w, e)[id] == w.table[id] <==> !WritesRetry(w, e, id)
  {
    RowAfter(visibility, w, e, id);
    if e.Finish? {
      assert Matches(w.table, e.execution);
    }
  }

  /** A retry that finds the row as it was read finds no execution. */
  lemma StillDeadIsUnexecuted(visibility: int, w: World, e: Event)
    requires Sole(w) && Proper(StillDead, visibility, w, e)
    ensures Proper(Unexecuted, visibility, w, e)
  {
    forall x | x in w.live
      ensures Matches(w.table, x)
    {
    }
  }

  /**
   If every retry's write finds the row still dead on the attempts it read, succeeded and
   cancelled jobs are never written again, and a dead one only by a retry by hand.
   */
  lemma {:induction false} FinishedJobsStay(visibility: int, w: World, es: seq<Event>, id: Id)
    requires Sole(w) && ProperRun(StillDead, visibility, w, es) && id in w.table && IsTerminal(w.table[id])
    requires w.table[id].status == Dead ==> !RetriesByHand(visibility, w, es, id)
    ensures id in Exec(visibility, w, es).table && Exec(visibility, w, es).table[id] == w.table[id]
    decreases es
  {
    if es != [] {
      FinishedRowStays(visibility, w, es[0], id);
      StillDeadIsUnexecuted(visibility, w, es[0]);
      SoleKeptExactly(visibility, w, es[0]);
      FinishedJobsStay(visibility, Step(visibility, w, es[0]), es[1..], id);
    }
  }

  // ----- Attempts -----------------------------------------------------------------------

  /** Every claim is accounted for, and only reclaims and retries by hand buy extra ones. */
  lemma AttemptsAccounted(visibility: int, w: World, es: seq<Event>, id: Id)
    requires Start(w) && ProperRun(Accounted, visibility, w, es)
    requires id in Exec(visibility, w, es).table
    ensures id in Exec(visibility, w, es).ledger
    ensures var u := Exec(visibility, w, es);
            var j, l := u.table[id], u.ledger[id];
            && l.claims == j.attemptCount + l.reclaims
                           + (if j.status == Running || j.status == Succeeded then 1 else 0)
            && l.claims <= Max(1, j.maxRetries) + l.reclaims + l.manual
  {
    RunsKeepInv(visibility, w, es);
    var u := Exec(visibility, w, es);
    assert RowOk(u.now, u.table[id], u.ledger[id]);
  }

  /** The claims a job has left before it can only end, unless reclaimed or retried by hand. */
  ghost function ClaimsLeft(w: World, id: Id): int
    requires id in w.table && id in w.ledger
  {
    Tries(w.table[id]) + w.ledger[id].reclaims + w.ledger[id].manual - w.ledger[id].claims
  }

  lemma ClaimsLeftStep(visibility: int, w: World, e: Event, id: Id)
    requires Inv(w) && Enabled(w, e) && Proper(Accounted, visibility, w, e) && id in w.table
    ensures var u := Step(visibility, w, e);
            && id in u.table && id in u.ledger
            && ClaimsLeft(u, id) >= 0
            && ClaimsLeft(u, id) - ClaimsLeft(w, id)
               == (u.ledger[id].reclaims - w.ledger[id].reclaims) + (u.ledger[id].manual - w.ledger[id].manual)
                  - (if e.ClaimJobs? && id in e.ids then 1 else 0)
  {
    TriesStay(visibility, w, e, id);
    StepKeepsInv(visibility, w, e);
    var u := Step(visibility, w, e);
    assert RowOk(u.now, u.table[id], u.ledger[id]);
    assert u.ledger[id] == NextLedger(visibility, w, e, id);
  }

  lemma TriesStay(visibility: int, w: World, e: Event, id: Id)
    requires Enabled(w, e) && id in w.table
    ensures id in NextTable(visibility, w, e) && Tries(NextTable(visibility, w, e)[id]) == Tries(w.table[id])
  {
    RowAfter(visibility, w, e, id);
  }

  function ClaimsIn(es: seq<Event>, id: Id): nat {
    if es == [] then 0
    else (if es[0].ClaimJobs? && id in es[0].ids then 1 else 0) + ClaimsIn(es[1..], id)
  }

  /**
   From any world on, a job is claimed at most as often as it has claims left, plus once
   for every reclaim and every retry by hand; with finitely many of those, finitely often.
   */
  lemma {:induction false} ClaimsAreFinite(visibility: int, w: World, es: seq<Event>, id: Id)
    requires Inv(w) && ProperRun(Accounted, visibility, w, es) && id in w.table
    ensures var u := Exec(visibility, w, es);
            && id in u.table && id in u.ledger
            && ClaimsIn(es, id) <= ClaimsLeft(w, id)
                                   + (u.ledger[id].reclaims - w.ledger[id].reclaims)
                                   + (u.ledger[id].manual - w.ledger[id].manual)
    decreases es
  {
    if es == [] {
      assert RowOk(w.now, w.table[id], w.ledger[id]);
    } else {
      ClaimsLeftStep(visibility, w, es[0], id);
      StepKeepsInv(visibility, w, es[0]);
      ClaimsAreFinite(visibility, Step(visibility, w, es[0]), es[1..], id);
    }
  }

  // ----- Spacing ------------------------------------------------------------------------

  /** A claim of the job at this time keeps the distance its failures so far ask for. */
  predicate KeepsDistance(j: Job, l: Ledger, at: Time) {
    j.retryDelaySec >= 0 && j.attemptCount > 0 ==>
      var k, b, gap := j.attemptCount, j.retryDelaySec * SECOND, at - l.first;
      && 2 * gap >= TwiceGap(j.strategy, j.retryDelaySec, k)
      && (j.strategy == Fixed && b <= DAY ==> gap >= k * b)
      && (j.strategy == Linear && b * k <= DAY ==> 2 * gap >= b * (k * (k + 1)))
      && (j.strategy == Exponential && 0 < b && b * Pow2(k - 1) <= DAY && k <= 1024 ==>
            2 * gap > b * (Pow2(k) - 1))
  }

  /**
   No claim comes before run_at, and without retries by hand the claim after the k-th
   failure comes at least the summed delays after the first claim.
   */
  lemma ClaimsAreSpaced(visibility: int, w: World, es: seq<Event>, worker: Id, ids: set<Id>, at: Time, id: Id)
    requires Start(w) && ProperRun(Accounted, visibility, w, es)
    requires Enabled(Exec(visibility, w, es), ClaimJobs(worker, ids, at)) && id in ids
    ensures var u := Exec(visibility, w, es);
            && id in u.table && id in u.ledger
            && u.table[id].runAt <= at
            && (u.ledger[id].manual == 0 ==> KeepsDistance(u.table[id], u.ledger[id], at))
  {
    RunsKeepInv(visibility, w, es);
    var u := Exec(visibility, w, es);
    assert RowOk(u.now, u.table[id], u.ledger[id]);
    if u.ledger[id].manual == 0 {
      SpacedRowsKeepDistance(u.table[id], u.ledger[id], at);
    }
  }

  lemma SpacedRowsKeepDistance(j: Job, l: Ledger, at: Time)
    requires Spaced(j, l) && l.manual == 0 && j.status == Pending && j.runAt <= at
    ensures KeepsDistance(j, l, at)
  {
    var k, sec := j.attemptCount, j.retryDelaySec;
    if sec >= 0 && k > 0 {
      if j.strategy == Fixed && sec * SECOND <= DAY {
        FixedGap(sec, k);
      } else if j.strategy == Linear && sec * SECOND * k <= DAY {
        LinearGap(sec, k);
      } else if j.strategy == Exponential && 0 < sec && sec * SECOND * Pow2(k - 1) <= DAY && k <= 1024 {
        ExponentialGap(sec, k);
      }
    }
  }

  lemma {:induction false} FixedGap(sec: nat, k: nat)
    requires sec * SECOND <= DAY
    ensures TwiceGap(Fixed, sec, k) == 2 * (k * (sec * SECOND))
  {
    if k > 0 {
      FixedGap(sec, k - 1);
      assert k * (sec * SECOND) == (k - 1) * (sec * SECOND) + sec * SECOND;
    }
  }

  lemma {:induction false} LinearGap(sec: nat, k: nat)
    requires sec * SECOND * k <= DAY
    ensures TwiceGap(Linear, sec, k) == sec * SECOND * (k * (k + 1))
  {
    if k > 0 {
      var b := sec * SECOND;
      ScaleMonotone(b, k - 1, k);
      LinearGap(sec, k - 1);
      ProductNonNegative(b, k);
      SumToTriangle(b, k);
    }
  }

  lemma SumToTriangle(b: nat, k: nat)
    requires k > 0
    ensures b * ((k - 1) * k) + 2 * (b * k) == b * (k * (k + 1))
  {
    assert (k - 1) * k + 2 * k == k * (k + 1);
    assert b * ((k - 1) * k + 2 * k) == b * ((k - 1) * k) + b * (2 * k);
  }

  lemma {:induction false} ExponentialGap(sec: nat, k: nat)
    requires sec > 0 && k >= 1 && sec * SECOND * Pow2(k - 1) <= DAY && k <= 1024
    ensures TwiceGap(Exponential, sec, k) == sec * SECOND * (Pow2(k) - 1) + k
  {
    var b := sec * SECOND;
    ScaleMonotone(b, 1, Pow2(k - 1));
    assert TwiceLeast(Exponential, sec, k) == b * Pow2(k - 1) + 1;
    if k == 1 {
      assert TwiceGap(Exponential, sec, 0) == 0;
    } else {
      ScaleMonotone(b, Pow2(k - 2), Pow2(k - 1));
      ExponentialGap(sec, k - 1);
      DoubleLessOne(b, Pow2(k - 1));
    }
  }

  lemma DoubleLessOne(b: nat, p: nat)
    ensures b * (p - 1) + b * p == b * (2 * p - 1)
  {
  }

  // ----- Recovery -----------------------------------------------------------------------

  /**
   The reaper leaves a running job alone up to the whole-second visibility timeout of
   its claim, and after that makes it pending, unclaimed and due at once, on the same
   attempt. It does not ask whether the node is alive.
   */
  lemma ReaperRecovers(visibility: int, w: World, id: Id)
    requires Inv(w) && id in w.table && w.table[id].status == Running
    ensures var j := w.table[id];
            var u := Step(visibility, w, Reap);
            && id in u.table
            && (w.now <= j.claimedAt.value + WholeSeconds(visibility) * SECOND ==> u.table[id] == j)
            && (w.now > j.claimedAt.value + WholeSeconds(visibility) * SECOND ==>
                  && Eligible(u.table[id], j.queue, w.now)
                  && u.table[id] == j.(status := Pending, claimedBy := None, claimedAt := None))
  {
    RowAfter(visibility, w, Reap, id);
    assert RowOk(w.now, w.table[id], w.ledger[id]);
  }

  /** An unfinished job all of whose executions are lost, by a crash or a lost write. */
  ghost predicate Abandoned(w: World, id: Id) {
    id in w.table && !IsTerminal(w.table[id]) && forall x :: x in w.live ==> x.id != id
  }

  /** The moment from which the next round of a loop makes an abandoned job due, and the loop. */
  function Deadline(visibility: int, j: Job): Time {
    if j.status == Running && j.claimedAt.Some? then j.claimedAt.value + WholeSeconds(visibility) * SECOND + 1
    else j.runAt
  }

  function LoopFor(j: Job): Event {
    if j.status == Running then Reap else PromoteDue
  }

  /** The run contains the loop's event at or after the deadline. */
  ghost predicate ServedAfter(visibility: int, w: World, es: seq<Event>, deadline: Time, loop: Event)
    decreases es
  {
    es != []
    && ((w.now >= deadline && es[0] == loop)
        || ServedAfter(visibility, Step(visibility, w, es[0]), es[1..], deadline, loop))
  }

  /** The job is due for a claim on the same attempt, unless it has been cancelled first. */
  predicate DueAgain(w: World, id: Id, attempts: nat) {
    && id in w.table && w.table[id].attemptCount == attempts
    && (Eligible(w.table[id], w.table[id].queue, w.now) || w.table[id].status == Cancelled)
  }

  /** A stale retry by hand makes the job due, on the attempts it once read. */
  predicate PutBack(visibility: int, w: World, e: Event, id: Id) {
    && WritesRetry(w, e, id) && id in NextTable(visibility, w, e)
    && Eligible(NextTable(visibility, w, e)[id], NextTable(visibility, w, e)[id].queue, w.now)
  }

  ghost predicate ComesBack(visibility: int, w: World, es: seq<Event>, id: Id, attempts: nat)
    decreases es
  {
    || DueAgain(w, id, attempts)
    || (es != [] && PutBack(visibility, w, es[0], id))
    || (es != [] && ComesBack(visibility, Step(visibility, w, es[0]), es[1..], id, attempts))
  }

  predicate ClaimedUntil(j: Job, now: Time) {
    j.status == Running && j.claimedAt.Some? ==> j.claimedAt.value <= now
  }

  /** What holds in any run whatever: the row shapes, and no claim lies in the future. */
  ghost predicate RowsPast(w: World) {
    Valid(w.table) && forall id :: id in w.table ==> ClaimedUntil(w.table[id], w.now)
  }

  /** Until it is due again nothing happens to an abandoned job. */
  lemma AbandonedRowWaits(visibility: int, w: World, e: Event, id: Id)
    requires RowsPast(w) && Abandoned(w, id) && Enabled(w, e) && !DueAgain(w, id, w.table[id].attemptCount)
    ensures var u := Step(visibility, w, e);
            || PutBack(visibility, w, e, id)
            || DueAgain(u, id, w.table[id].attemptCount)
            || (Abandoned(u, id) && u.table[id] == w.table[id])
  {
    var j, u := w.table[id], Step(visibility, w, e);
    assert Shape(j) && ClaimedUntil(j, w.now);
    RowAfter(visibility, w, e, id);
    if e.ClaimJobs? {
      assert id !in e.ids;
    } else {
      assert u.live <= w.live;
    }
  }

  lemma LoopMakesDue(visibility: int, w: World, id: Id)
    requires RowsPast(w) && Abandoned(w, id) && w.now >= Deadline(visibility, w.table[id])
    ensures DueAgain(Step(visibility, w, LoopFor(w.table[id])), id, w.table[id].attemptCount)
  {
    assert Shape(w.table[id]) && ClaimedUntil(w.table[id], w.now);
    RowAfter(visibility, w, LoopFor(w.table[id]), id);
  }

  lemma LegalStepKeepsRows(visibility: int, w: World, e: Event)
    requires RowsPast(w) && Enabled(w, e)
    ensures RowsPast(Step(visibility, w, e))
  {
    TableStaysValid(visibility, w, e);
    forall id | id in w.table
      ensures ClaimedUntil(NextTable(visibility, w, e)[id], w.now)
    {
      assert ClaimedUntil(w.table[id], w.now);
      RowAfter(visibility, w, e, id);
    }
  }

  lemma {:induction false} LegalRunsKeepRows(visibility: int, w: World, es: seq<Event>)
    requires RowsPast(w) && Legal(visibility, w, es)
    ensures RowsPast(Exec(visibility, w, es))
    decreases es
  {
    if es != [] {
      LegalStepKeepsRows(visibility, w, es[0]);
      LegalRunsKeepRows(visibility, Step(visibility, w, es[0]), es[1..]);
    }
  }

  /**
   Whatever else happens, late executions of other jobs included: once its deadline has
   passed and its loop has run, an abandoned job has been due again on the same attempt,
   unless it was cancelled, or put back by a stale retry by hand, before.
   */
  lemma {:induction false} AbandonedJobsComeBack(visibility: int, w: World, es: seq<Event>, id: Id)
    requires RowsPast(w) && Abandoned(w, id) && Legal(visibility, w, es)
    requires ServedAfter(visibility, w, es, Deadline(visibility, w.table[id]), LoopFor(w.table[id]))
    ensures ComesBack(visibility, w, es, id, w.table[id].attemptCount)
    decreases es
  {
    var attempts := w.table[id].attemptCount;
    if !DueAgain(w, id, attempts) && !PutBack(visibility, w, es[0], id) {
      var u := Step(visibility, w, es[0]);
      AbandonedRowWaits(visibility, w, es[0], id);
      if w.now >= Deadline(visibility, w.table[id]) {
        LoopMakesDue(visibility, w, id);
      }
      LegalStepKeepsRows(visibility, w, es[0]);
      if DueAgain(u, id, attempts) {
        assert ComesBack(visibility, u, es[1..], id, attempts);
      } else {
        AbandonedJobsComeBack(visibility, u, es[1..], id);
      }
    }
  }

  /** Time and the loops need no one's leave: from any world the deadline can pass and the loop run. */
  lemma LoopsCanRun(visibility: int, w: World, id: Id) returns (es: seq<Event>)
    requires id in w.table
    ensures Legal(visibility, w, es)
    ensures ServedAfter(visibility, w, es, Deadline(visibility, w.table[id]), LoopFor(w.table[id]))
  {
    var deadline, loop := Deadline(visibility, w.table[id]), LoopFor(w.table[id]);
    var tick := Tick(Max(w.now, deadline));
    var v := Step(visibility, w, tick);
    es := [tick, loop];
    assert es[1..] == [loop] && [loop][1..] == [];
    assert Legal(visibility, Step(visibility, v, loop), []);
    assert Legal(visibility, v, [loop]) && ServedAfter(visibility, v, [loop], deadline, loop);
  }

  lemma {:induction false} EveryNodeCrashes(visibility: int, w: World) returns (es: seq<Event>)
    ensures Legal(visibility, w, es)
    ensures Exec(visibility, w, es).live == {}
    ensures Exec(visibility, w, es).table == w.table
    decreases w.live
  {
    es := [];
    if w.live != {} {
      var x :| x in w.live;
      var v := Step(visibility, w, Crash(x.worker));
      assert x !in v.live && v.live <= w.live;
      assert v.table == w.table;
      var rest := EveryNodeCrashes(visibility, v);
      es := [Crash(x.worker)] + rest;
      assert es[1..] == rest;
    }
  }

  /**
   No unfinished job is ever stranded: in any run whatever, if its executions are lost
   (every node may crash right there), then every continuation in which its deadline
   passes and its loop runs brings it back; and there is such a continuation.
   */
  lemma NoJobIsStranded(visibility: int, w: World, es: seq<Event>, id: Id)
    returns (crashes: seq<Event>, loops: seq<Event>)
    requires Start(w) && Legal(visibility, w, es)
    requires id in Exec(visibility, w, es).table && !IsTerminal(Exec(visibility, w, es).table[id])
    ensures var u := Exec(visibility, w, es);
            && Legal(visibility, u, crashes)
            && var v := Exec(visibility, u, crashes);
               var j := u.table[id];
               && Abandoned(v, id) && v.table == u.table
               && Legal(visibility, v, loops) && ServedAfter(visibility, v, loops, Deadline(visibility, j), LoopFor(j))
               && forall more :: Legal(visibility, v, more)
                                 && ServedAfter(visibility, v, more, Deadline(visibility, j), LoopFor(j)) ==>
                                   ComesBack(visibility, v, more, id, j.attemptCount)
  {
    LegalRunsKeepRows(visibility, w, es);
    var u := Exec(visibility, w, es);
    crashes := EveryNodeCrashes(visibility, u);
    var v := Exec(visibility, u, crashes);
    LegalRunsKeepRows(visibility, u, crashes);
    loops := LoopsCanRun(visibility, v, id);
    var deadline, loop := Deadline(visibility, v.table[id]), LoopFor(v.table[id]);
    forall more | Legal(visibility, v, more) && ServedAfter(visibility, v, more, deadline, loop)
      ensures ComesBack(visibility, v, more, id, v.table[id].attemptCount)
    {
      AbandonedJobsComeBack(visibility, v, more, id);
    }
  }
}
