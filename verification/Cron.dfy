/**
 Cron definitions and the firing of the due ones by one engine
 (backend/internal/worker/cron.go, backend/internal/repository/postgres/cron.go).
 Parsing a cron expression is abstract: it yields a schedule or fails.
 */
module Cron {
  import opened Domain
  import opened JobRepository
  import opened LockProtocol
  import opened Locks
  import opened Ordering
  import opened Store
  import opened Support

  /** next(t) is the first occurrence strictly after t. */
  type Schedule = Time -> Time
  type Parser = string -> Option<Schedule>

  datatype Definition = Definition(
    queue: Id,
    expr: string,
    maxRetries: Option<Int32>,
    strategy: Option<Strategy>,
    active: bool,
    lastFired: Option<Time>,
    nextFire: Option<Time>)

  type Definitions = map<Id, Definition>

  ghost predicate IsSchedule(next: Schedule) {
    && (forall t :: next(t) > t)
    && (forall t, u :: t <= u < next(t) ==> next(u) == next(t))
  }

  ghost predicate Parses(parse: Parser) {
    forall expr :: parse(expr).Some? ==> IsSchedule(parse(expr).value)
  }

  ghost predicate Occurs(next: Schedule, t: Time) {
    next(t - 1) == t
  }

  lemma NextOccurs(next: Schedule, t: Time)
    requires IsSchedule(next)
    ensures Occurs(next, next(t)) && next(t) > t
  {
    assert t <= next(t) - 1 < next(t);
  }

  predicate IsDue(d: Definition, now: Time) {
    d.active && d.nextFire.Some? && d.nextFire.value <= now
  }

  function DueRanks(defs: Definitions, now: Time): map<Id, Rank> {
    map id | id in defs && IsDue(defs[id], now) :: Rank(defs[id].nextFire.value, 0)
  }

  function SpawnedJob(id: Id, d: Definition, now: Time): Job {
    Job(d.queue, Some(id), None, Pending, 5, now,
        match d.maxRetries case Some(n) => n case None => 0, 0,
        match d.strategy case Some(s) => s case None => Unknown,
        0, 0, None, None, None, None)
  }

  /** What goes wrong in a tick: inserts refused and fire-time updates lost, by definition. */
  datatype Tick = Tick(now: Time, refused: set<Id>, lost: set<Id>)

  predicate Fires(parse: Parser, id: Id, d: Definition, tick: Tick) {
    IsDue(d, tick.now) && parse(d.expr).Some? && id !in tick.refused
  }

  /** A definition after a tick. */
  function AfterTick(parse: Parser, id: Id, d: Definition, tick: Tick): Definition {
    if !IsDue(d, tick.now) then d
    else
      match parse(d.expr)
      case None => d.(active := false)
      case Some(next) =>
        if id in tick.refused || id in tick.lost then d
        else d.(lastFired := Some(tick.now), nextFire := Some(next(tick.now)))
  }

  /** The definition fires next at the first occurrence after this tick, and is otherwise the same. */
  ghost predicate AdvancedFrom(next: Schedule, before: Definition, after: Definition, now: Time) {
    && after.nextFire.Some? && Occurs(next, after.nextFire.value) && now < after.nextFire.value
    && (forall t :: now < t < after.nextFire.value ==> !Occurs(next, t))
    && after.lastFired == Some(now)
    && after.active == before.active && after.queue == before.queue && after.expr == before.expr
    && after.maxRetries == before.maxRetries && after.strategy == before.strategy
  }

  /** There is no occurrence between a time and the next one. */
  lemma NextSkipsNothing(next: Schedule, now: Time, t: Time)
    requires IsSchedule(next) && now < t < next(now)
    ensures !Occurs(next, t)
  {
    assert next(t - 1) == next(now);
  }

  /** What a tick does to a definition, case by case. */
  lemma AfterTickExactly(parse: Parser, id: Id, d: Definition, tick: Tick)
    requires Parses(parse)
    ensures var e := AfterTick(parse, id, d, tick);
            if !(d.active && d.nextFire.Some? && d.nextFire.value <= tick.now) then e == d
            else if parse(d.expr) == None then e == d.(active := false)
            else if id in tick.refused || id in tick.lost then e == d
            else AdvancedFrom(parse(d.expr).value, d, e, tick.now)
  {
    if IsDue(d, tick.now) && parse(d.expr).Some? {
      var next := parse(d.expr).value;
      NextOccurs(next, tick.now);
      forall t | tick.now < t < next(tick.now)
        ensures !Occurs(next, t)
      {
        NextSkipsNothing(next, tick.now, t);
      }
    }
  }

  /** The spawned job is pending and due at the tick that fired it, on no attempts, for its definition. */
  lemma SpawnedJobIsDue(id: Id, d: Definition, now: Time)
    ensures var j := SpawnedJob(id, d, now);
            && Eligible(j, d.queue, now) && j.runAt == now && j.cronJob == Some(id) && j.key == None
            && j.priority == 5 && j.attemptCount == 0 && NewRow(j) == j
            && (d.maxRetries.Some? ==> j.maxRetries == d.maxRetries.value)
            && (d.maxRetries == None ==> j.maxRetries == 0)
            && (d.strategy.Some? ==> j.strategy == d.strategy.value)
            && j.retryDelaySec == 0 && j.timeoutSec == 0
            && forall t, job :: Issuable(t, Create(job, j))
  {
  }

  /** The definitions after those in `done` had their turn. */
  function Ticked(parse: Parser, defs: Definitions, done: seq<Id>, tick: Tick): Definitions {
    map id | id in defs :: if id in done then AfterTick(parse, id, defs[id], tick) else defs[id]
  }

  lemma OneMoreTicked(parse: Parser, defs: Definitions, done: seq<Id>, id: Id, tick: Tick)
    requires id in defs && id !in done
    ensures Ticked(parse, defs, done, tick)[id := AfterTick(parse, id, defs[id], tick)]
            == Ticked(parse, defs, done + [id], tick)
    ensures Ticked(parse, defs, done, tick)[id] == defs[id]
  {
  }

  /** The keys of `spawned` are the definitions of `done` that fire. */
  ghost predicate SpawnedFor(parse: Parser, defs: Definitions, done: seq<Id>, tick: Tick, spawned: map<Id, Id>) {
    forall id :: id in spawned <==> id in done && id in defs && Fires(parse, id, defs[id], tick)
  }

  lemma AllTicked(parse: Parser, defs: Definitions, due: seq<Id>, tick: Tick, spawned: map<Id, Id>)
    requires forall id :: id in due <==> id in defs && IsDue(defs[id], tick.now)
    requires SpawnedFor(parse, defs, due, tick, spawned)
    ensures Ticked(parse, defs, due, tick) == map id | id in defs :: AfterTick(parse, id, defs[id], tick)
    ensures forall id :: id in spawned <==> id in defs && Fires(parse, id, defs[id], tick)
  {
  }

  lemma NextOfDistinct(s: seq<Id>, i: nat)
    requires Distinct(s) && i < |s|
    ensures s[i] in s && s[i] !in s[..i] && s[..i + 1] == s[..i] + [s[i]]
  {
  }

  /** One jobs table is the other with exactly one new job for each key of `spawned`. */
  ghost predicate SpawnedInto(before: Table, after: Table, defs: Definitions, now: Time, spawned: map<Id, Id>) {
    && spawned.Keys <= defs.Keys
    && (forall id :: id in spawned ==> spawned[id] in after.Keys - before.Keys)
    && (forall id :: id in spawned ==> after[spawned[id]] == SpawnedJob(id, defs[id], now))
    && (forall a, b :: a in spawned && b in spawned && spawned[a] == spawned[b] ==> a == b)
    && (forall j :: j in before ==> j in after && after[j] == before[j])
    && |after| == |before| + |spawned|
  }

  lemma OneMoreSpawned(before: Table, mid: Table, after: Table, defs: Definitions, now: Time,
                       spawned: map<Id, Id>, id: Id, job: Id)
    requires SpawnedInto(before, mid, defs, now, spawned) && id in defs && id !in spawned
    requires job !in mid && after == mid[job := SpawnedJob(id, defs[id], now)]
    ensures SpawnedInto(before, after, defs, now, spawned[id := job])
  {
    var more := spawned[id := job];
    assert |more| == |spawned| + 1 && |after| == |mid| + 1;
    forall x | x in more
      ensures more[x] in after.Keys - before.Keys && after[more[x]] == SpawnedJob(x, defs[x], now)
    {
      assert x == id || x in spawned;
    }
  }

  class CronEngine {
    const parse: Parser
    const lockTTL: Time
    const jobs: JobStore
    const locks: LockManager
    var defs: Definitions
    var nextId: Id   // the next unused id, for jobs and for lock tokens

    ghost predicate Valid()
      reads this, jobs, locks
    {
      && lockTTL > 0
      && (forall id :: id in jobs.rows ==> id < nextId)
      && (forall key :: key in locks.store ==> locks.store[key].token < nextId)
    }

    constructor (parse: Parser, jobs: JobStore, locks: LockManager, lockTTL: Time, defs: Definitions, nextId: Id)
      requires lockTTL > 0 && (forall id :: id in jobs.rows ==> id < nextId)
      requires forall key :: key in locks.store ==> locks.store[key].token < nextId
      ensures Valid() && this.parse == parse && this.jobs == jobs && this.locks == locks && this.defs == defs
    {
      this.parse, this.jobs, this.locks, this.lockTTL := parse, jobs, locks, lockTTL;
      this.defs, this.nextId := defs, nextId;
    }

    method ListDue(now: Time) returns (due: seq<Id>)
      ensures IsTop(DueRanks(defs, now), |DueRanks(defs, now)|, due)
      ensures forall id :: id in due <==> id in defs && IsDue(defs[id], now)
      ensures forall id :: id in due <==>
                id in defs && defs[id].active && defs[id].nextFire.Some? && defs[id].nextFire.value <= now
      ensures forall i, j :: 0 <= i < j < |due| ==> defs[due[i]].nextFire.value <= defs[due[j]].nextFire.value
    {
      var ranks := DueRanks(defs, now);
      due := OrderBy(ranks, |ranks|);
      AllAreTaken(ranks, |ranks|, due);
    }

    /** No process holds a lock beyond this engine's own calls. */
    ghost predicate Unlocked(now: Time)
      reads locks
    {
      forall key :: !Present(locks.store, now, key)
    }

    /** Fires one due definition: insert the job, then advance the definition. */
    method ExecuteFire(id: Id, tick: Tick) returns (job: Option<Id>)
      requires Valid() && id in defs && IsDue(defs[id], tick.now)
      modifies this`defs, this`nextId, jobs
      ensures Valid() && nextId >= old(nextId)
      ensures defs == old(defs)[id := AfterTick(parse, id, old(defs[id]), tick)]
      ensures job.Some? <==> Fires(parse, id, old(defs[id]), tick)
      ensures job.Some? ==> job.value !in old(jobs.rows) && job.value == old(nextId)
                            && jobs.rows == old(jobs.rows)[job.value := SpawnedJob(id, old(defs[id]), tick.now)]
      ensures job == None ==> jobs.rows == old(jobs.rows)
      ensures job.Some? <==> parse(old(defs[id]).expr).Some? && id !in tick.refused
      ensures Parses(parse) && job.Some? && id !in tick.lost ==>
                AdvancedFrom(parse(old(defs[id]).expr).value, old(defs[id]), defs[id], tick.now)
      ensures parse(old(defs[id]).expr) == None ==> defs == old(defs)[id := old(defs[id]).(active := false)]
    {
      if Parses(parse) {
        AfterTickExactly(parse, id, defs[id], tick);
      }
      job := None;
      var d := defs[id];
      var schedule := parse(d.expr);
      if schedule == None {
        defs := defs[id := d.(active := false)];
        return;
      }
      var nextFireAt := (schedule.value)(tick.now);
      if id in tick.refused {
        assert defs == defs[id := d];
        return;
      }
      var _ := jobs.Insert(nextId, SpawnedJob(id, d, tick.now));
      job := Some(nextId);
      nextId := nextId + 1;
      if id !in tick.lost {
        defs := defs[id := d.(lastFired := Some(tick.now), nextFire := Some(nextFireAt))];
      } else {
        assert defs == defs[id := d];
      }
    }

    /** TryWithLock around ExecuteFire; alone, the engine always gets the lock and gives it back. */
    method FireCron(id: Id, tick: Tick) returns (job: Option<Id>)
      requires Valid() && Unlocked(tick.now) && id in defs && IsDue(defs[id], tick.now)
      modifies this`defs, this`nextId, jobs, locks
      ensures Valid() && Unlocked(tick.now)
      ensures defs == old(defs)[id := AfterTick(parse, id, old(defs[id]), tick)]
      ensures job.Some? <==> Fires(parse, id, old(defs[id]), tick)
      ensures job.Some? ==> job.value !in old(jobs.rows)
                            && jobs.rows == old(jobs.rows)[job.value := SpawnedJob(id, old(defs[id]), tick.now)]
      ensures job == None ==> jobs.rows == old(jobs.rows)
    {
      var key := Key(id, tick.now / SECOND / 60);
      var token := nextId;
      nextId := nextId + 1;
      var acquired := locks.Acquire(key, token, lockTTL, tick.now);
      assert !Present(old(locks.store), tick.now, key) && acquired;
      ghost var held := locks.store;
      job := ExecuteFire(id, tick);
      assert locks.store == held && Present(held, tick.now, key);
      var _ := locks.Release(key, token, tick.now);
      forall other
        ensures !Present(locks.store, tick.now, other)
      {
        assert !Present(old(locks.store), tick.now, other);
      }
    }

    /** The tick's state once `done` had their turn; it began with the tables `was` and `rows`. */
    ghost predicate Progress(was: Definitions, rows: Table, done: seq<Id>, tick: Tick, spawned: map<Id, Id>)
      reads this, jobs, locks
    {
      && Valid() && Unlocked(tick.now)
      && defs == Ticked(parse, was, done, tick)
      && SpawnedFor(parse, was, done, tick, spawned)
      && SpawnedInto(rows, jobs.rows, was, tick.now, spawned)
    }

    /** One round of Evaluate's loop. */
    method EvaluateOne(ghost was: Definitions, ghost rows: Table, ghost done: seq<Id>, id: Id, tick: Tick,
                       spawned: map<Id, Id>) returns (more: map<Id, Id>)
      requires Progress(was, rows, done, tick, spawned)
      requires id in was && IsDue(was[id], tick.now) && id !in done
      modifies this`defs, this`nextId, jobs, locks
      ensures Progress(was, rows, done + [id], tick, more)
    {
      OneMoreTicked(parse, was, done, id, tick);
      ghost var mid := jobs.rows;
      var job := FireCron(id, tick);
      more := spawned;
      if job.Some? {
        OneMoreSpawned(rows, mid, jobs.rows, was, tick.now, spawned, id, job.value);
        more := spawned[id := job.value];
      }
    }

    /** Evaluate's loop over the due definitions. */
    method FireAll(due: seq<Id>, tick: Tick) returns (spawned: map<Id, Id>)
      requires Valid() && Unlocked(tick.now) && Distinct(due)
      requires forall id :: id in due ==> id in defs && IsDue(defs[id], tick.now)
      modifies this`defs, this`nextId, jobs, locks
      ensures Progress(old(defs), old(jobs.rows), due, tick, spawned)
    {
      ghost var was, rows := defs, jobs.rows;
      spawned := map[];
      for i := 0 to |due|
        invariant Progress(was, rows, due[..i], tick, spawned)
      {
        NextOfDistinct(due, i);
        spawned := EvaluateOne(was, rows, due[..i], due[i], tick, spawned);
      }
      assert due[..|due|] == due;
    }

    /**
     One tick: every due definition is fired once, in the order of its fire times,
     whatever number of its occurrences has passed; all other definitions stay.
     */
    method Evaluate(tick: Tick) returns (spawned: map<Id, Id>)
      requires Valid() && Unlocked(tick.now)
      modifies this`defs, this`nextId, jobs, locks
      ensures Valid() && Unlocked(tick.now)
      ensures defs == map id | id in old(defs) :: AfterTick(parse, id, old(defs)[id], tick)
      ensures forall id :: id in spawned <==> id in old(defs) && Fires(parse, id, old(defs)[id], tick)
      ensures SpawnedInto(old(jobs.rows), jobs.rows, old(defs), tick.now, spawned)
    {
      var due := ListDue(tick.now);
      ghost var was := defs;
      spawned := FireAll(due, tick);
      AllTicked(parse, was, due, tick, spawned);
    }
  }

  // ----- Runs of one engine -------------------------------------------------------------

  /** A definition's occurrences that fired, one per job, over a run of ticks. */
  function Consumed(parse: Parser, id: Id, d: Definition, ticks: seq<Tick>): seq<Time>
    decreases ticks
  {
    if ticks == [] then []
    else
      (if Fires(parse, id, d, ticks[0]) then [d.nextFire.value] else [])
      + Consumed(parse, id, AfterTick(parse, id, d, ticks[0]), ticks[1..])
  }

  function AfterTicks(parse: Parser, id: Id, d: Definition, ticks: seq<Tick>): Definition
    decreases ticks
  {
    if ticks == [] then d else AfterTicks(parse, id, AfterTick(parse, id, d, ticks[0]), ticks[1..])
  }

  predicate NothingLost(id: Id, ticks: seq<Tick>) {
    forall i :: 0 <= i < |ticks| ==> id !in ticks[i].lost
  }

  predicate Until(ticks: seq<Tick>, now: Time) {
    forall i :: 0 <= i < |ticks| ==> ticks[i].now <= now
  }

  predicate Increasing(s: seq<Time>) {
    forall i, j :: 0 <= i < j < |s| ==> s[i] < s[j]
  }

  /** The schedule's occurrences from one time to another. */
  ghost function Occurrences(next: Schedule, from: Time, to: Time): set<Time> {
    set t: Time | from <= t <= to && Occurs(next, t)
  }

  /** Each job consumes an occurrence of its own, later than all before it and not in the future. */
  lemma {:induction false} EachFireConsumesAnOccurrence(parse: Parser, id: Id, d: Definition, ticks: seq<Tick>,
                                                          now: Time)
    requires Parses(parse) && parse(d.expr).Some? && d.nextFire.Some?
    requires Occurs(parse(d.expr).value, d.nextFire.value)
    requires NothingLost(id, ticks) && Until(ticks, now)
    ensures var s := Consumed(parse, id, d, ticks);
            && Increasing(s)
            && (forall t :: t in s ==> t in Occurrences(parse(d.expr).value, d.nextFire.value, now))
    decreases ticks
  {
    if ticks != [] {
      var next := parse(d.expr).value;
      var e := AfterTick(parse, id, d, ticks[0]);
      NextOccurs(next, ticks[0].now);
      forall i | 0 <= i < |ticks[1..]|
        ensures ticks[1..][i] == ticks[i + 1]
      {
      }
      EachFireConsumesAnOccurrence(parse, id, e, ticks[1..], now);
      var rest := Consumed(parse, id, e, ticks[1..]);
      forall t | t in rest
        ensures t in Occurrences(next, e.nextFire.value, now)
      {
      }
      if Fires(parse, id, d, ticks[0]) {
        assert d.nextFire.value <= ticks[0].now <= now;
        Lead(next, d.nextFire.value, e.nextFire.value, rest, now);
      } else {
        assert Consumed(parse, id, d, ticks) == rest;
        Widen(next, d.nextFire.value, e.nextFire.value, now);
      }
    }
  }

  lemma Widen(next: Schedule, from: Time, later: Time, to: Time)
    requires from <= later
    ensures Occurrences(next, later, to) <= Occurrences(next, from, to)
  {
  }

  lemma Lead(next: Schedule, first: Time, second: Time, rest: seq<Time>, to: Time)
    requires first < second && first <= to && Occurs(next, first) && Increasing(rest)
    requires forall t :: t in rest ==> t in Occurrences(next, second, to)
    ensures Increasing([first] + rest)
    ensures forall t :: t in [first] + rest ==> t in Occurrences(next, first, to)
  {
    forall i | 0 <= i < |rest|
      ensures first < rest[i] && rest[i] in Occurrences(next, first, to)
    {
      assert rest[i] in rest;
    }
  }

  lemma {:induction false} IncreasingFits(s: seq<Time>, within: set<Time>)
    requires Increasing(s) && forall t :: t in s ==> t in within
    ensures |s| <= |within|
  {
    if s != [] {
      var last := s[|s| - 1];
      IncreasingFits(s[..|s| - 1], within - {last});
    }
  }

  /** The jobs a definition spawned never outnumber its occurrences up to now. */
  lemma NeverMoreJobsThanOccurrences(parse: Parser, id: Id, d: Definition, ticks: seq<Tick>, now: Time)
    requires Parses(parse) && parse(d.expr).Some? && d.nextFire.Some?
    requires Occurs(parse(d.expr).value, d.nextFire.value)
    requires NothingLost(id, ticks) && Until(ticks, now)
    ensures |Consumed(parse, id, d, ticks)| <= |Occurrences(parse(d.expr).value, d.nextFire.value, now)|
  {
    EachFireConsumesAnOccurrence(parse, id, d, ticks, now);
    IncreasingFits(Consumed(parse, id, d, ticks), Occurrences(parse(d.expr).value, d.nextFire.value, now));
  }

  /** After a tick without errors no active definition is due: what was missed has coalesced. */
  lemma NothingStaysDue(parse: Parser, id: Id, d: Definition, tick: Tick)
    requires Parses(parse) && id !in tick.refused && id !in tick.lost
    ensures !IsDue(AfterTick(parse, id, d, tick), tick.now)
    ensures Fires(parse, id, d, tick) ==> AfterTick(parse, id, d, tick).active
  {
    if IsDue(d, tick.now) && parse(d.expr).Some? {
      NextOccurs(parse(d.expr).value, tick.now);
    }
  }

  /** A broken expression never fires, and is switched off by the first tick that finds it due. */
  lemma {:induction false} BrokenExpressionsNeverFire(parse: Parser, id: Id, d: Definition, ticks: seq<Tick>)
    requires parse(d.expr) == None
    ensures Consumed(parse, id, d, ticks) == []
    ensures (exists i :: 0 <= i < |ticks| && IsDue(d, ticks[i].now)) ==> !AfterTicks(parse, id, d, ticks).active
    ensures !d.active ==> AfterTicks(parse, id, d, ticks) == d
    decreases ticks
  {
    if ticks != [] {
      BrokenExpressionsNeverFire(parse, id, AfterTick(parse, id, d, ticks[0]), ticks[1..]);
      if i :| 0 <= i < |ticks| && IsDue(d, ticks[i].now) {
        if i > 0 {
          assert ticks[1..][i - 1] == ticks[i];
        }
      }
    }
  }

  /** The definition waits for the first occurrence after its last fire. */
  ghost predicate Waits(next: Schedule, d: Definition) {
    d.active && d.lastFired.Some? && d.nextFire == Some(next(d.lastFired.value))
  }

  lemma {:induction false} StaysWaiting(parse: Parser, id: Id, d: Definition, ticks: seq<Tick>)
    requires Parses(parse) && parse(d.expr).Some? && Waits(parse(d.expr).value, d)
    ensures var e := AfterTicks(parse, id, d, ticks);
            e.expr == d.expr && Waits(parse(d.expr).value, e)
    decreases ticks
  {
    if ticks != [] {
      StaysWaiting(parse, id, AfterTick(parse, id, d, ticks[0]), ticks[1..]);
    }
  }

  /**
   No occurrence is skipped: after any ticks whatever, a tick that is not refused fires
   the definition if and only if some occurrence came after its last kept fire and by
   now. So only the occurrences between two ticks coalesce into one job.
   */
  lemma FiresIfSomethingOccurred(parse: Parser, id: Id, d: Definition, ticks: seq<Tick>, tick: Tick)
    requires Parses(parse) && parse(d.expr).Some? && Waits(parse(d.expr).value, d)
    requires id !in tick.refused
    ensures var e := AfterTicks(parse, id, d, ticks);
            && e.lastFired.Some?
            && (Fires(parse, id, e, tick) <==>
                  exists t :: e.lastFired.value < t <= tick.now && Occurs(parse(d.expr).value, t))
  {
    StaysWaiting(parse, id, d, ticks);
    var next, e := parse(d.expr).value, AfterTicks(parse, id, d, ticks);
    var last := e.lastFired.value;
    NextOccurs(next, last);
    if t :| last < t <= tick.now && Occurs(next, t) {
      if t < next(last) {
        NextSkipsNothing(next, last, t);
      }
    }
  }

  /** The first kept fire of a definition makes it wait so. */
  lemma FiringWaits(parse: Parser, id: Id, d: Definition, tick: Tick)
    requires Fires(parse, id, d, tick) && id !in tick.lost
    ensures Waits(parse(d.expr).value, AfterTick(parse, id, d, tick))
    ensures AfterTick(parse, id, d, tick).lastFired == Some(tick.now)
  {
  }

  /** A lost update breaks this: the same occurrence fires again at the next tick. */
  lemma LostUpdateFiresTwice(parse: Parser, id: Id, d: Definition, now: Time)
    requires parse(d.expr).Some? && IsDue(d, now)
    ensures Consumed(parse, id, d, [Tick.Tick(now, {}, {id}), Tick.Tick(now, {}, {})])
            == [d.nextFire.value, d.nextFire.value]
  {
    var a, b := Tick.Tick(now, {}, {id}), Tick.Tick(now, {}, {});
    assert [a, b][1..] == [b] && [b][1..] == [];
    assert Consumed(parse, id, AfterTick(parse, id, d, b), []) == [];
    assert Consumed(parse, id, d, [b]) == [d.nextFire.value] + [];
  }
}
