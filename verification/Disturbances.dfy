/** Runs in which a late reap or a stale retry takes a job away from its execution. */
module Disturbances {
  import opened Backoff
  import opened Domain
  import opened Executor
  import opened Lifecycle
  import opened Store

  // ----- A late reap ------------------------------------------------------------------------

  /** One job's world: its row, its unfinished executions, its ledger. */
  ghost function Alone(now: Time, j: Job, live: set<Execution>, l: Ledger): World {
    Retried(now, j, live, l, map[])
  }

  /** The same with retries by hand under way. */
  ghost function Retried(now: Time, j: Job, live: set<Execution>, l: Ledger, retries: map<nat, Read>): World {
    World(now, map[0 := j], live, map[0 := l], retries)
  }

  lemma RetriedStep(visibility: int, now: Time, j: Job, live: set<Execution>, l: Ledger, retries: map<nat, Read>,
                    e: Event)
    requires !e.Enqueue?
    ensures var w := Retried(now, j, live, l, retries);
            && 0 in NextTable(visibility, w, e)
            && Step(visibility, w, e)
               == Retried(if e.Tick? then e.to else now, NextTable(visibility, w, e)[0],
                          NextLive(visibility, w, e), NextLedger(visibility, w, e, 0), NextRetries(w, e))
  {
  }

  lemma AloneStep(visibility: int, now: Time, j: Job, live: set<Execution>, l: Ledger, e: Event)
    requires (e.ClaimJobs? && e.ids == {0}) || e.Tick? || e.Reap?
    ensures var w := Alone(now, j, live, l);
            Step(visibility, w, e)
            == Alone(if e.Tick? then e.to else now, NextTable(visibility, w, e)[0],
                     NextLive(visibility, w, e), NextLedger(visibility, w, e, 0))
  {
  }

  /** Two executions of one job at once: one finishes it, the other's late write reopens it. */
  ghost predicate RunsTwice(visibility: int, u: World, x: Execution, y: Execution, d: Draws) {
    && x in u.live && y in u.live && x != y && x.id == y.id
    && Enabled(u, Finish(x, Success, u.now, d))
    && var v := Step(visibility, u, Finish(x, Success, u.now, d));
       && x.id in v.table && v.table[x.id].status == Succeeded
       && Enabled(v, Finish(y, Failure, u.now, d))
       && var t := NextTable(visibility, v, Finish(y, Failure, u.now, d));
          x.id in t && t[x.id].status == Pending
  }

  lemma Prepend(visibility: int, w: World, e: Event, es: seq<Event>)
    requires Enabled(w, e) && Legal(visibility, Step(visibility, w, e), es)
    ensures Legal(visibility, w, [e] + es)
    ensures Exec(visibility, w, [e] + es) == Exec(visibility, Step(visibility, w, e), es)
  {
    assert ([e] + es)[1..] == es;
  }

  /**
   An execution that outlives the visibility timeout is run a second time beside the
   first, and its late final write reopens a job the other one has finished.
   */
  lemma OverlongExecutionRunsTwice(visibility: nat, d: Draws)
    returns (w: World, es: seq<Event>, x: Execution, y: Execution)
    ensures Start(w) && Legal(visibility, w, es)
    ensures RunsTwice(visibility, Exec(visibility, w, es), x, y, d)
  {
    var j := Job(0, None, None, Pending, 5, 0, 3, 0, Fixed, 60, 300, None, None, None, None);
    var late := WholeSeconds(visibility) * SECOND + 1;
    var running := Assign(Claim(1, {0}, 0), j);
    x := Execution(0, 1, 0, 0, j);
    w := World(0, map[], {}, map[], map[]);
    var tail;
    tail, y := LateReclaimRunsTwice(visibility, running, x, late, d);
    var head := ClaimAndWait(visibility, j, late, tail);
    EnqueueAlone(visibility, j);
    Prepend(visibility, w, Enqueue(0, j), head);
    es := [Enqueue(0, j)] + head;
  }

  /** Node 1 has claimed the job at time 0. */
  ghost function Claimed(now: Time, j: Job): World {
    Alone(now, Assign(Claim(1, {0}, 0), j), {Execution(0, 1, 0, 0, j)}, Ledger(1, 0, 0, 0))
  }

  lemma ClaimAndWait(visibility: int, j: Job, late: Time, tail: seq<Event>) returns (es: seq<Event>)
    requires j.status == Pending && j.runAt <= 0 <= late
    requires Legal(visibility, Claimed(late, j), tail)
    ensures Legal(visibility, Alone(0, j, {}, Ledger(0, 0, 0, 0)), es)
    ensures Exec(visibility, Alone(0, j, {}, Ledger(0, 0, 0, 0)), es)
            == Exec(visibility, Claimed(late, j), tail)
  {
    var x, running := Execution(0, 1, 0, 0, j), Assign(Claim(1, {0}, 0), j);
    assert {} + {x} == {x};
    ClaimAlone(visibility, 0, j, {}, Ledger(0, 0, 0, 0), 1, 0);
    AloneStep(visibility, 0, running, {x}, Ledger(1, 0, 0, 0), Tick(late));
    Prepend(visibility, Alone(0, running, {x}, Ledger(1, 0, 0, 0)), Tick(late), tail);
    Prepend(visibility, Alone(0, j, {}, Ledger(0, 0, 0, 0)), ClaimJobs(1, {0}, 0), [Tick(late)] + tail);
    es := [ClaimJobs(1, {0}, 0)] + ([Tick(late)] + tail);
  }

  lemma LateReclaimRunsTwice(visibility: int, j: Job, x: Execution, late: Time, d: Draws)
    returns (es: seq<Event>, y: Execution)
    requires Where(Reclaim(visibility, late), 0, j) && j.runAt <= late
    requires x.id == 0 && x.born < late && j.attemptCount + 1 < j.maxRetries && j.strategy == Fixed
    ensures Legal(visibility, Alone(late, j, {x}, Ledger(1, 0, 0, 0)), es)
    ensures RunsTwice(visibility, Exec(visibility, Alone(late, j, {x}, Ledger(1, 0, 0, 0)), es), x, y, d)
  {
    var back := Assign(Reclaim(visibility, late), j);
    var again := Assign(Claim(2, {0}, late), back);
    y := Execution(0, 2, late, late, back);
    ReapAlone(visibility, late, j, {x}, Ledger(1, 0, 0, 0));
    ClaimAlone(visibility, late, back, {x}, Ledger(1, 1, 0, 0), 2, late);
    assert {x} + {y} == {x, y};
    LateWriteReopens(visibility, late, again, x, y, d);
    var last := ClaimJobs(2, {0}, late);
    assert Legal(visibility, Alone(late, again, {x, y}, Ledger(2, 1, 0, 0)), []);
    Prepend(visibility, Alone(late, back, {x}, Ledger(1, 1, 0, 0)), last, []);
    Prepend(visibility, Alone(late, j, {x}, Ledger(1, 0, 0, 0)), Reap, [last] + []);
    es := [Reap] + ([last] + []);
  }

  lemma EnqueueAlone(visibility: int, j: Job)
    requires Issuable(map[], Create(0, j)) && NewRow(j) == j
    ensures var w := World(0, map[], {}, map[], map[]);
            && Start(w) && Enabled(w, Enqueue(0, j))
            && Step(visibility, w, Enqueue(0, j)) == Alone(0, j, {}, Ledger(0, 0, 0, 0))
  {
  }

  lemma ClaimAlone(visibility: int, now: Time, j: Job, live: set<Execution>, l: Ledger, worker: Id, at: Time)
    requires j.status == Pending && j.runAt <= at <= now
    ensures Enabled(Alone(now, j, live, l), ClaimJobs(worker, {0}, at))
    ensures Step(visibility, Alone(now, j, live, l), ClaimJobs(worker, {0}, at))
            == Alone(now, Assign(Claim(worker, {0}, at), j), live + {Execution(0, worker, at, now, j)},
                     l.(claims := l.claims + 1, first := if l.claims == 0 then now else l.first))
  {
    var w := Alone(now, j, live, l);
    AloneStep(visibility, now, j, live, l, ClaimJobs(worker, {0}, at));
    RowAfter(visibility, w, ClaimJobs(worker, {0}, at), 0);
    assert NextLive(visibility, w, ClaimJobs(worker, {0}, at)) == live + {Execution(0, worker, at, now, j)};
  }

  lemma ReapAlone(visibility: int, now: Time, j: Job, live: set<Execution>, l: Ledger)
    requires Where(Reclaim(visibility, now), 0, j)
    ensures Step(visibility, Alone(now, j, live, l), Reap)
            == Alone(now, Assign(Reclaim(visibility, now), j), live, l.(reclaims := l.reclaims + 1))
  {
    AloneStep(visibility, now, j, live, l, Reap);
    RowAfter(visibility, Alone(now, j, live, l), Reap, 0);
  }

  lemma LateWriteReopens(visibility: int, now: Time, j: Job, x: Execution, y: Execution, d: Draws)
    requires x != y && x.id == y.id == 0 && x.born <= now && y.born <= now
    requires y.snap.attemptCount + 1 < y.snap.maxRetries && y.snap.strategy == Fixed
    ensures RunsTwice(visibility, Alone(now, j, {x, y}, Ledger(2, 1, 0, 0)), x, y, d)
  {
    var u := Alone(now, j, {x, y}, Ledger(2, 1, 0, 0));
    var v := Step(visibility, u, Finish(x, Success, now, d));
    RowAfter(visibility, u, Finish(x, Success, now, d), 0);
    assert y in v.live;
    RowAfter(visibility, v, Finish(y, Failure, now, d), 0);
  }

  // ----- Two retries at once ------------------------------------------------------------------

  lemma {:induction false} OneMore(visibility: int, w: World, es: seq<Event>, e: Event)
    requires ProperRun(StillDead, visibility, w, es)
    requires Enabled(Exec(visibility, w, es), e) && Proper(StillDead, visibility, Exec(visibility, w, es), e)
    ensures ProperRun(StillDead, visibility, w, es + [e])
    ensures Exec(visibility, w, es + [e]) == Step(visibility, Exec(visibility, w, es), e)
    decreases es
  {
    if es == [] {
      assert ProperRun(StillDead, visibility, Step(visibility, w, e), []);
      assert ([] + [e])[1..] == [];
    } else {
      assert (es + [e])[1..] == es[1..] + [e];
      OneMore(visibility, Step(visibility, w, es[0]), es[1..], e);
    }
  }

  /** The run goes on by the event, properly, to the world u. */
  lemma Go(visibility: int, w: World, es: seq<Event>, e: Event, u: World) returns (more: seq<Event>)
    requires ProperRun(StillDead, visibility, w, es) && !e.Reap?
    requires Enabled(Exec(visibility, w, es), e) && Finds(StillDead, Exec(visibility, w, es), e)
    requires Step(visibility, Exec(visibility, w, es), e) == u
    requires forall i :: 0 <= i < |es| ==> !es[i].Reap?
    ensures ProperRun(StillDead, visibility, w, more) && Exec(visibility, w, more) == u
    ensures forall i :: 0 <= i < |more| ==> !more[i].Reap?
  {
    more := es + [e];
    OneMore(visibility, w, es, e);
  }

  /** The second retry's write takes the row from an execution, or reopens a job that one has finished. */
  ghost predicate RetryDisturbs(visibility: int, u: World, x: Execution, call: nat, d: Draws) {
    && x in u.live && Enabled(u, WriteRetry(call, u.now))
    && (var v := Step(visibility, u, WriteRetry(call, u.now));
        x in v.live && x.id in v.table && v.table[x.id].status == Pending)
    && Enabled(u, Finish(x, Success, u.now, d))
    && (var v := Step(visibility, u, Finish(x, Success, u.now, d));
        && x.id in v.table && v.table[x.id].status == Succeeded
        && Enabled(v, WriteRetry(call, u.now))
        && x.id in NextTable(visibility, v, WriteRetry(call, u.now))
        && NextTable(visibility, v, WriteRetry(call, u.now))[x.id].status == Pending)
  }

  /** Enqueued, claimed by node 1, failed on its only attempt. */
  lemma OneJobDies(visibility: int, j: Job, d: Draws) returns (w: World, es: seq<Event>)
    requires j.status == Pending && j.runAt == 0 && j.attemptCount == 0 && j.maxRetries == 0 && NewRow(j) == j
    ensures Start(w) && ProperRun(StillDead, visibility, w, es)
    ensures forall i :: 0 <= i < |es| ==> !es[i].Reap?
    ensures Exec(visibility, w, es)
            == Alone(0, Assign(MarkDead(0, 0), Assign(Claim(1, {0}, 0), j)), {}, Ledger(1, 0, 0, 0))
  {
    w := World(0, map[], {}, map[], map[]);
    var x, running := Execution(0, 1, 0, 0, j), Assign(Claim(1, {0}, 0), j);
    assert {} + {x} == {x};
    EnqueueAlone(visibility, j);
    es := Go(visibility, w, [], Enqueue(0, j), Alone(0, j, {}, Ledger(0, 0, 0, 0)));
    ClaimAlone(visibility, 0, j, {}, Ledger(0, 0, 0, 0), 1, 0);
    es := Go(visibility, w, es, ClaimJobs(1, {0}, 0), Alone(0, running, {x}, Ledger(1, 0, 0, 0)));
    FailsForGood(visibility, j, d);
    es := Go(visibility, w, es, Finish(x, Failure, 0, d),
             Alone(0, Assign(MarkDead(0, 0), running), {}, Ledger(1, 0, 0, 0)));
  }

  lemma FailsForGood(visibility: int, j: Job, d: Draws)
    requires j.attemptCount == 0 && j.maxRetries == 0
    ensures var x, running := Execution(0, 1, 0, 0, j), Assign(Claim(1, {0}, 0), j);
            var w := Alone(0, running, {x}, Ledger(1, 0, 0, 0));
            && Enabled(w, Finish(x, Failure, 0, d))
            && Step(visibility, w, Finish(x, Failure, 0, d))
               == Alone(0, Assign(MarkDead(0, 0), running), {}, Ledger(1, 0, 0, 0))
  {
    var x, running := Execution(0, 1, 0, 0, j), Assign(Claim(1, {0}, 0), j);
    var fails := Finish(x, Failure, 0, d);
    RetriedStep(visibility, 0, running, {x}, Ledger(1, 0, 0, 0), map[], fails);
    RowAfter(visibility, Alone(0, running, {x}, Ledger(1, 0, 0, 0)), fails, 0);
    assert {x} - {x} == {};
  }

  lemma BothRead(visibility: int, w: World, before: seq<Event>, dead: Job) returns (es: seq<Event>)
    requires ProperRun(StillDead, visibility, w, before) && forall i :: 0 <= i < |before| ==> !before[i].Reap?
    requires Exec(visibility, w, before) == Alone(0, dead, {}, Ledger(1, 0, 0, 0))
    requires dead.status == Dead && dead.attemptCount == 1
    ensures ProperRun(StillDead, visibility, w, es) && forall i :: 0 <= i < |es| ==> !es[i].Reap?
    ensures Exec(visibility, w, es)
            == Retried(0, dead, {}, Ledger(1, 0, 0, 0), map[1 := Read(0, 1), 2 := Read(0, 1)])
  {
    var l, one := Ledger(1, 0, 0, 0), map[1 := Read(0, 1)];
    RetriedStep(visibility, 0, dead, {}, l, map[], ReadForRetry(1, 0));
    es := Go(visibility, w, before, ReadForRetry(1, 0), Retried(0, dead, {}, l, one));
    RetriedStep(visibility, 0, dead, {}, l, one, ReadForRetry(2, 0));
    es := Go(visibility, w, es, ReadForRetry(2, 0), Retried(0, dead, {}, l, one[2 := Read(0, 1)]));
  }

  /** One retry writes, and node 2 claims the job. */
  lemma OneWrites(visibility: int, w: World, before: seq<Event>, dead: Job) returns (es: seq<Event>)
    requires ProperRun(StillDead, visibility, w, before) && forall i :: 0 <= i < |before| ==> !before[i].Reap?
    requires Exec(visibility, w, before)
             == Retried(0, dead, {}, Ledger(1, 0, 0, 0), map[1 := Read(0, 1), 2 := Read(0, 1)])
    requires dead.status == Dead && dead.attemptCount == 1
    ensures var back := Assign(ScheduleRetry(0, 0, 1), dead);
            && ProperRun(StillDead, visibility, w, es)
            && Exec(visibility, w, es)
               == Retried(0, Assign(Claim(2, {0}, 0), back), {Execution(0, 2, 0, 0, back)}, Ledger(2, 0, 1, 0),
                          map[2 := Read(0, 1)])
    ensures forall i :: 0 <= i < |es| ==> !es[i].Reap?
  {
    var l, both, second := Ledger(1, 0, 0, 0), map[1 := Read(0, 1), 2 := Read(0, 1)], map[2 := Read(0, 1)];
    var back := Assign(ScheduleRetry(0, 0, 1), dead);
    RetriedStep(visibility, 0, dead, {}, l, both, WriteRetry(1, 0));
    RowAfter(visibility, Retried(0, dead, {}, l, both), WriteRetry(1, 0), 0);
    assert both - {1} == second;
    es := Go(visibility, w, before, WriteRetry(1, 0), Retried(0, back, {}, Ledger(1, 0, 1, 0), second));
    ClaimRetried(visibility, back, second);
    es := Go(visibility, w, es, ClaimJobs(2, {0}, 0),
             Retried(0, Assign(Claim(2, {0}, 0), back), {Execution(0, 2, 0, 0, back)}, Ledger(2, 0, 1, 0), second));
  }

  lemma ClaimRetried(visibility: int, j: Job, retries: map<nat, Read>)
    requires j.status == Pending && j.runAt <= 0
    ensures var w := Retried(0, j, {}, Ledger(1, 0, 1, 0), retries);
            && Enabled(w, ClaimJobs(2, {0}, 0))
            && Step(visibility, w, ClaimJobs(2, {0}, 0))
               == Retried(0, Assign(Claim(2, {0}, 0), j), {Execution(0, 2, 0, 0, j)}, Ledger(2, 0, 1, 0), retries)
  {
    var w := Retried(0, j, {}, Ledger(1, 0, 1, 0), retries);
    RetriedStep(visibility, 0, j, {}, Ledger(1, 0, 1, 0), retries, ClaimJobs(2, {0}, 0));
    RowAfter(visibility, w, ClaimJobs(2, {0}, 0), 0);
    assert NextLive(visibility, w, ClaimJobs(2, {0}, 0)) == {Execution(0, 2, 0, 0, j)};
  }

  lemma WriteDisturbs(visibility: int, j: Job, x: Execution, d: Draws)
    requires x.id == 0 && x.born <= 0
    ensures RetryDisturbs(visibility, Retried(0, j, {x}, Ledger(2, 0, 1, 0), map[2 := Read(0, 1)]), x, 2, d)
  {
    var u := Retried(0, j, {x}, Ledger(2, 0, 1, 0), map[2 := Read(0, 1)]);
    var done := Finish(x, Success, 0, d);
    RowAfter(visibility, u, WriteRetry(2, 0), 0);
    RowAfter(visibility, u, done, 0);
    RowAfter(visibility, Step(visibility, u, done), WriteRetry(2, 0), 0);
  }

  /**
   Without any reap, and with every event proper so far: two retries have read a dead job,
   one has written, a node executes the job, and the other retry's write is still to come.
   */
  lemma SecondRetryDisturbs(visibility: int, d: Draws) returns (w: World, es: seq<Event>, x: Execution)
    ensures Start(w) && ProperRun(StillDead, visibility, w, es)
    ensures forall i :: 0 <= i < |es| ==> !es[i].Reap?
    ensures RetryDisturbs(visibility, Exec(visibility, w, es), x, 2, d)
  {
    var j := Job(0, None, None, Pending, 5, 0, 0, 0, Fixed, 60, 300, None, None, None, None);
    var dead := Assign(MarkDead(0, 0), Assign(Claim(1, {0}, 0), j));
    var back := Assign(ScheduleRetry(0, 0, 1), dead);
    w, es := OneJobDies(visibility, j, d);
    es := BothRead(visibility, w, es, dead);
    es := OneWrites(visibility, w, es, dead);
    x := Execution(0, 2, 0, 0, back);
    WriteDisturbs(visibility, Assign(Claim(2, {0}, 0), back), x, d);
  }
}
