/**
 Any number of cron engines on one definitions table, every step interleaved: list the
 due definitions, take the lock of one (LockProtocol), insert its job, advance it,
 release. The due list is not read again under the lock, the lock name contains the
 minute of the engine's own tick, and insert and update are separate statements; so
 the lock alone does not deduplicate. CleanRun says exactly when occurrences fire once,
 and Careful what has to go well for the lock to bring that about.
 */
module CronCluster {
  import opened Cron
  import opened Domain
  import L = LockProtocol

  /** A definition as ListDue returned it, with the occurrence it was due for. */
  datatype Due = Due(id: Id, occurrence: Time)

  datatype Engine =
    | Resting
    | Walking(at: Time, todo: seq<Due>)
    | Firing(at: Time, due: Due, todo: seq<Due>)
    | Spawned(at: Time, due: Due, todo: seq<Due>)
    | Releasing(at: Time, todo: seq<Due>)

  /** A spawned job: the definition and the occurrence it was spawned for. */
  datatype Fire = Fire(id: Id, occurrence: Time)

  /** Engine i is process i of the lock; `lost` are the fires whose definition was never advanced. */
  datatype Cluster = Cluster(
    locks: L.State, defs: Definitions, engines: seq<Engine>, fires: seq<Fire>, lost: set<Fire>)

  datatype Event =
    | Wait(to: Time)
    | List(e: nat, at: Time, todo: seq<Due>)
    | TryLock(e: nat, token: L.Token, ttl: Time)
    | Spawn(e: nat)
    | Break(e: nat)
    | RefuseInsert(e: nat)
    | Advance(e: nat)
    | LoseUpdate(e: nat)
    | ReleaseGet(e: nat)
    | ReleaseDel(e: nat)
    | Rest(e: nat)
    | Crash(e: nat)

  function Minute(t: Time): int {
    t / SECOND / 60
  }

  predicate InTable(c: Cluster, d: Due, at: Time) {
    d.id in c.defs && IsDue(c.defs[d.id], at) && c.defs[d.id].nextFire == Some(d.occurrence)
  }

  predicate InFiring(c: Cluster, e: nat) {
    e < |c.engines| && c.engines[e].Firing? && c.engines[e].due.id in c.defs
  }

  predicate InSpawned(c: Cluster, e: nat) {
    e < |c.engines| && c.engines[e].Spawned? && c.engines[e].due.id in c.defs
  }

  /** The lock's part of an event. */
  function LockEvent(c: Cluster, v: Event): Option<L.Event> {
    match v
    case Wait(to) => Some(L.Tick(to))
    case TryLock(e, token, ttl) =>
      if e < |c.engines| && c.engines[e].Walking? && c.engines[e].todo != []
      then Some(L.SetNX(e, KeyOf(c.engines[e].at, c.engines[e].todo[0]), token, ttl)) else None
    case Break(e) => Some(L.FnReturns(e))
    case RefuseInsert(e) => Some(L.FnReturns(e))
    case Advance(e) => Some(L.FnReturns(e))
    case LoseUpdate(e) => Some(L.FnReturns(e))
    case ReleaseGet(e) => Some(L.Get(e))
    case ReleaseDel(e) => Some(L.Del(e))
    case Crash(e) => Some(L.Crash(e))
    case _ => None
  }

  function KeyOf(at: Time, d: Due): L.Key {
    L.Key(d.id, Minute(at))
  }

  predicate Enabled(parse: Parser, c: Cluster, v: Event) {
    && (LockEvent(c, v).Some? ==> L.Enabled(c.locks, LockEvent(c, v).value))
    && match v
       case Wait(_) => true
       case List(e, at, todo) =>
         && e < |c.engines| && c.engines[e] == Resting && at <= c.locks.now
         && forall d :: d in todo ==> InTable(c, d, at)
       case TryLock(e, _, _) => e < |c.engines| && c.engines[e].Walking? && c.engines[e].todo != []
       case Spawn(e) => InFiring(c, e) && parse(c.defs[c.engines[e].due.id].expr).Some?
       case Break(e) => InFiring(c, e) && parse(c.defs[c.engines[e].due.id].expr) == None
       case RefuseInsert(e) => InFiring(c, e)
       case Advance(e) => InSpawned(c, e) && parse(c.defs[c.engines[e].due.id].expr).Some?
       case LoseUpdate(e) => InSpawned(c, e)
       case ReleaseGet(e) => e < |c.engines| && c.engines[e].Releasing?
       case ReleaseDel(e) => e < |c.engines| && c.engines[e].Releasing?
       case Rest(e) => e < |c.engines| && c.engines[e].Walking? && c.engines[e].todo == []
       case Crash(e) => e < |c.engines|
  }

  function Locks(c: Cluster, v: Event): L.State
    requires LockEvent(c, v).Some? ==> L.Enabled(c.locks, LockEvent(c, v).value)
  {
    match LockEvent(c, v)
    case Some(l) => L.Step(c.locks, l)
    case None => c.locks
  }

  function Step(parse: Parser, c: Cluster, v: Event): Cluster
    requires Enabled(parse, c, v)
  {
    var locks := Locks(c, v);
    match v
    case Wait(_) => c.(locks := locks)
    case List(e, at, todo) => c.(engines := c.engines[e := Walking(at, todo)])
    case TryLock(e, _, _) =>
      var w := c.engines[e];
      var next := if locks.procs[e].Holder? then Firing(w.at, w.todo[0], w.todo[1..]) else Walking(w.at, w.todo[1..]);
      c.(locks := locks, engines := c.engines[e := next])
    case Spawn(e) =>
      var w := c.engines[e];
      c.(engines := c.engines[e := Spawned(w.at, w.due, w.todo)],
         fires := c.fires + [Fire(w.due.id, w.due.occurrence)])
    case Break(e) =>
      var w := c.engines[e];
      c.(locks := locks, engines := c.engines[e := Releasing(w.at, w.todo)],
         defs := c.defs[w.due.id := c.defs[w.due.id].(active := false)])
    case RefuseInsert(e) =>
      c.(locks := locks, engines := c.engines[e := Releasing(c.engines[e].at, c.engines[e].todo)])
    case Advance(e) =>
      var w := c.engines[e];
      var d := c.defs[w.due.id];
      c.(locks := locks, engines := c.engines[e := Releasing(w.at, w.todo)],
         defs := c.defs[w.due.id := d.(lastFired := Some(w.at), nextFire := Some(parse(d.expr).value(w.at)))])
    case LoseUpdate(e) =>
      c.(locks := locks, engines := c.engines[e := Releasing(c.engines[e].at, c.engines[e].todo)],
         lost := c.lost + Unadvanced(c, e))
    case ReleaseGet(e) =>
      var w := c.engines[e];
      c.(locks := locks, engines := c.engines[e := if locks.procs[e] == L.Idle then Walking(w.at, w.todo) else w])
    case ReleaseDel(e) =>
      c.(locks := locks, engines := c.engines[e := Walking(c.engines[e].at, c.engines[e].todo)])
    case Rest(e) => c.(engines := c.engines[e := Resting])
    case Crash(e) => c.(locks := locks, engines := c.engines[e := Resting], lost := c.lost + Unadvanced(c, e))
  }

  /** The job an engine has spawned without advancing its definition yet. */
  function Unadvanced(c: Cluster, e: nat): set<Fire>
    requires e < |c.engines|
  {
    if c.engines[e].Spawned? then {Fire(c.engines[e].due.id, c.engines[e].due.occurrence)} else {}
  }

  /** The due definitions an engine has still to try, after the one it is at. */
  function ToTry(g: Engine): seq<Due> {
    match g
    case Resting => []
    case Walking(_, todo) => todo
    case Firing(_, _, todo) => todo
    case Spawned(_, _, todo) => todo
    case Releasing(_, todo) => todo
  }

  /**
   No listed definition is passed over: only trying a lock, won or lost, takes the next
   one off an engine's list, and only an engine with nothing left to try rests.
   */
  lemma ListIsWalked(parse: Parser, c: Cluster, v: Event, i: nat)
    requires Enabled(parse, c, v) && i < |c.engines|
    ensures var g, h := c.engines[i], Step(parse, c, v).engines[i];
            match v
            case List(e, at, todo) => if e == i then h == Walking(at, todo) else h == g
            case TryLock(e, _, _) =>
              if e == i then ToTry(g) != [] && ToTry(h) == ToTry(g)[1..] && h.at == g.at else h == g
            case Crash(e) => if e == i then h == Resting else h == g
            case Rest(e) => if e == i then h == Resting && ToTry(g) == [] else h == g
            case _ => ToTry(h) == ToTry(g) && (h.Resting? <==> g.Resting?) && (!g.Resting? ==> h.at == g.at)
  {
  }

  /** The insert is of the definition whose lock was won, and the update moves it past the tick, and no other. */
  lemma FiringAdvances(parse: Parser, c: Cluster, v: Event)
    requires Parses(parse) && Enabled(parse, c, v)
    ensures var u := Step(parse, c, v);
            && (v.TryLock? && u.engines[v.e].Firing? ==> u.engines[v.e].due == c.engines[v.e].todo[0])
            && (v.Spawn? ==> && u.engines[v.e] == Spawned(c.engines[v.e].at, c.engines[v.e].due, c.engines[v.e].todo)
                             && u.fires == c.fires + [Fire(c.engines[v.e].due.id, c.engines[v.e].due.occurrence)])
            && (!v.Spawn? ==> u.fires == c.fires)
            && (v.Advance? ==>
                  var id := c.engines[v.e].due.id;
                  && id in u.defs && u.defs == c.defs[id := u.defs[id]]
                  && AdvancedFrom(parse(c.defs[id].expr).value, c.defs[id], u.defs[id], c.engines[v.e].at))
            && (v.Break? ==> u.defs == c.defs[c.engines[v.e].due.id := c.defs[c.engines[v.e].due.id].(active := false)])
            && (!v.Advance? && !v.Break? ==> u.defs == c.defs)
  {
    if v.Advance? {
      var next, at := parse(c.defs[c.engines[v.e].due.id].expr).value, c.engines[v.e].at;
      NextOccurs(next, at);
      forall t | at < t < next(at)
        ensures !Occurs(next, t)
      {
        NextSkipsNothing(next, at, t);
      }
    }
  }

  predicate Start(c: Cluster) {
    && L.Start(c.locks) && |c.engines| == |c.locks.procs| && c.fires == [] && c.lost == {}
    && forall i :: 0 <= i < |c.engines| ==> c.engines[i] == Resting
  }

  predicate Legal(parse: Parser, c: Cluster, vs: seq<Event>)
    decreases vs
  {
    vs == [] || (Enabled(parse, c, vs[0]) && Legal(parse, Step(parse, c, vs[0]), vs[1..]))
  }

  function Exec(parse: Parser, c: Cluster, vs: seq<Event>): Cluster
    requires Legal(parse, c, vs)
    decreases vs
  {
    if vs == [] then c else Exec(parse, Step(parse, c, vs[0]), vs[1..])
  }

  // ----- Exactly when occurrences fire once ------------------------------------------------

  /**
   What the engine about to insert a job would have to find: its occurrence is still the
   definition's next one, no other engine has inserted a job for it and not yet advanced,
   and none has failed to.
   */
  predicate Clean(c: Cluster, e: nat)
    requires InFiring(c, e)
  {
    var d := c.engines[e].due;
    && c.defs[d.id].nextFire == Some(d.occurrence)
    && (forall i :: 0 <= i < |c.engines| && c.engines[i].Spawned? ==> c.engines[i].due != d)
    && Fire(d.id, d.occurrence) !in c.lost
  }

  predicate CleanRun(parse: Parser, c: Cluster, vs: seq<Event>)
    requires Legal(parse, c, vs)
    decreases vs
  {
    vs == [] || ((vs[0].Spawn? ==> Clean(c, vs[0].e)) && CleanRun(parse, Step(parse, c, vs[0]), vs[1..]))
  }

  predicate Once(fires: seq<Fire>) {
    forall i, k :: 0 <= i < k < |fires| ==> fires[i] != fires[k]
  }

  predicate Increasing(fires: seq<Fire>) {
    forall i, k :: 0 <= i < k < |fires| && fires[i].id == fires[k].id ==> fires[i].occurrence < fires[k].occurrence
  }

  predicate Fired(c: Cluster, d: Due) {
    Fire(d.id, d.occurrence) in c.fires
  }

  predicate NextIs(c: Cluster, d: Due) {
    d.id in c.defs && c.defs[d.id].nextFire == Some(d.occurrence)
  }

  /** A listed occurrence was due, and is the definition's next one unless it has fired. */
  predicate Seen(c: Cluster, d: Due, at: Time) {
    d.id in c.defs && d.occurrence <= at && (NextIs(c, d) || Fired(c, d))
  }

  predicate AllSeen(c: Cluster, g: Engine) {
    && (!g.Resting? ==> forall d :: d in g.todo ==> Seen(c, d, g.at))
    && (Busy(g) ==> Seen(c, g.due, g.at))
    && (g.Spawned? ==> NextIs(c, g.due) && Fired(c, g.due))
  }

  /** A fired occurrence lies behind its definition, unless that is about to be advanced or never was. */
  predicate Behind(c: Cluster, f: Fire) {
    && f.id in c.defs && c.defs[f.id].nextFire.Some?
    && (|| f.occurrence < c.defs[f.id].nextFire.value
        || (f.occurrence == c.defs[f.id].nextFire.value && (Pending(c, f) || f in c.lost)))
  }

  predicate Pending(c: Cluster, f: Fire) {
    exists i :: 0 <= i < |c.engines| && c.engines[i].Spawned? && c.engines[i].due == Due(f.id, f.occurrence)
  }

  ghost predicate History(c: Cluster) {
    && (forall i :: 0 <= i < |c.engines| ==> AllSeen(c, c.engines[i]))
    && (forall i, k :: 0 <= i < k < |c.engines| && c.engines[i].Spawned? && c.engines[k].Spawned? ==>
                         c.engines[i].due.id != c.engines[k].due.id)
    && (forall f :: f in c.fires ==> Behind(c, f))
    && (forall f :: f in c.lost ==> f in c.fires)
    && Increasing(c.fires)
  }

  /** The definitions that an event does not advance keep their next occurrence. */
  lemma NextStays(parse: Parser, c: Cluster, v: Event, id: Id)
    requires Enabled(parse, c, v) && id in c.defs
    ensures id in Step(parse, c, v).defs
    ensures !(v.Advance? && c.engines[v.e].due.id == id) ==>
              Step(parse, c, v).defs[id].nextFire == c.defs[id].nextFire
  {
  }

  lemma AdvanceMovesOn(parse: Parser, c: Cluster, v: Event)
    requires Parses(parse) && History(c) && v.Advance? && Enabled(parse, c, v)
    ensures var d, u := c.engines[v.e].due, Step(parse, c, v);
            && NextIs(c, d) && Fired(c, d)
            && u.defs[d.id].nextFire.Some? && d.occurrence < u.defs[d.id].nextFire.value
  {
    assert AllSeen(c, c.engines[v.e]);
  }

  lemma SeenKept(parse: Parser, c: Cluster, v: Event, d: Due, at: Time)
    requires History(c) && Enabled(parse, c, v) && Seen(c, d, at)
    ensures Seen(Step(parse, c, v), d, at)
  {
    NextStays(parse, c, v, d.id);
    if v.Advance? {
      assert AllSeen(c, c.engines[v.e]);
    }
  }

  lemma AllSeenKept(parse: Parser, c: Cluster, v: Event, i: nat)
    requires History(c) && Enabled(parse, c, v) && i < |c.engines|
    requires v.Spawn? ==> Clean(c, v.e)
    ensures AllSeen(Step(parse, c, v), Step(parse, c, v).engines[i])
  {
    var g, h := c.engines[i], Step(parse, c, v).engines[i];
    assert AllSeen(c, g);
    if !g.Resting? {
      forall d | d in g.todo
        ensures Seen(Step(parse, c, v), d, g.at)
      {
        SeenKept(parse, c, v, d, g.at);
      }
    }
    if Busy(g) {
      SeenKept(parse, c, v, g.due, g.at);
      NextStays(parse, c, v, g.due.id);
    }
  }

  lemma BehindKept(parse: Parser, c: Cluster, v: Event, f: Fire)
    requires Parses(parse) && History(c) && Enabled(parse, c, v) && Behind(c, f)
    ensures Behind(Step(parse, c, v), f)
  {
    var u := Step(parse, c, v);
    NextStays(parse, c, v, f.id);
    if v.Advance? {
      AdvanceMovesOn(parse, c, v);
    }
    if i :| 0 <= i < |c.engines| && c.engines[i].Spawned? && c.engines[i].due == Due(f.id, f.occurrence) {
      if !v.Advance? && u.engines[i] != c.engines[i] {
        assert f in u.lost;
      } else if u.engines[i] == c.engines[i] {
        assert Pending(c, f) ==> Pending(u, f);
      }
    }
  }

  lemma CleanSpawnIsNew(c: Cluster, e: nat, f: Fire)
    requires History(c) && InFiring(c, e) && Clean(c, e) && f in c.fires && f.id == c.engines[e].due.id
    ensures f.occurrence < c.engines[e].due.occurrence
  {
    assert Behind(c, f);
  }

  /** Whatever the inserting engine finds amiss, its occurrence has fired already. */
  lemma UncleanSpawnRepeats(c: Cluster, e: nat)
    requires History(c) && InFiring(c, e) && !Clean(c, e)
    ensures Fired(c, c.engines[e].due)
  {
    assert AllSeen(c, c.engines[e]);
    if i :| 0 <= i < |c.engines| && c.engines[i].Spawned? && c.engines[i].due == c.engines[e].due {
      assert AllSeen(c, c.engines[i]);
    }
  }

  lemma StepKeepsHistory(parse: Parser, c: Cluster, v: Event)
    requires Parses(parse) && History(c) && Enabled(parse, c, v)
    requires v.Spawn? ==> Clean(c, v.e)
    ensures History(Step(parse, c, v))
  {
    var u := Step(parse, c, v);
    forall i | 0 <= i < |u.engines|
      ensures AllSeen(u, u.engines[i])
    {
      AllSeenKept(parse, c, v, i);
    }
    SpawnedStayApart(parse, c, v);
    forall f | f in u.fires
      ensures Behind(u, f)
    {
      if f in c.fires {
        BehindKept(parse, c, v, f);
      } else {
        assert v.Spawn? && u.engines[v.e].due == Due(f.id, f.occurrence);
      }
    }
    LostHaveFired(parse, c, v);
    if v.Spawn? {
      forall f | f in c.fires && f.id == c.engines[v.e].due.id
        ensures f.occurrence < c.engines[v.e].due.occurrence
      {
        CleanSpawnIsNew(c, v.e, f);
      }
    }
  }

  lemma LostHaveFired(parse: Parser, c: Cluster, v: Event)
    requires History(c) && Enabled(parse, c, v)
    ensures forall f :: f in Step(parse, c, v).lost ==> f in Step(parse, c, v).fires
  {
    if v.LoseUpdate? || v.Crash? {
      assert AllSeen(c, c.engines[v.e]);
    }
  }

  lemma SpawnedStayApart(parse: Parser, c: Cluster, v: Event)
    requires History(c) && Enabled(parse, c, v)
    requires v.Spawn? ==> Clean(c, v.e)
    ensures var g := Step(parse, c, v).engines;
            forall i, k :: 0 <= i < k < |g| && g[i].Spawned? && g[k].Spawned? ==> g[i].due.id != g[k].due.id
  {
    if v.Spawn? {
      forall i | 0 <= i < |c.engines| && c.engines[i].Spawned?
        ensures c.engines[i].due.id != c.engines[v.e].due.id
      {
        assert AllSeen(c, c.engines[i]);
      }
    }
  }

  lemma {:induction false} FiresGrow(parse: Parser, c: Cluster, vs: seq<Event>)
    requires Legal(parse, c, vs)
    ensures c.fires <= Exec(parse, c, vs).fires
    decreases vs
  {
    if vs != [] {
      FiresGrow(parse, Step(parse, c, vs[0]), vs[1..]);
    }
  }

  lemma {:induction false} OnceExactlyIfClean(parse: Parser, c: Cluster, vs: seq<Event>)
    requires Parses(parse) && History(c) && Legal(parse, c, vs)
    ensures Once(Exec(parse, c, vs).fires) <==> CleanRun(parse, c, vs)
    ensures CleanRun(parse, c, vs) ==> Increasing(Exec(parse, c, vs).fires)
    decreases vs
  {
    if vs != [] {
      var u := Step(parse, c, vs[0]);
      if vs[0].Spawn? && !Clean(c, vs[0].e) {
        UncleanSpawnRepeats(c, vs[0].e);
        FiresGrow(parse, u, vs[1..]);
        var d := c.engines[vs[0].e].due;
        var i :| 0 <= i < |c.fires| && c.fires[i] == Fire(d.id, d.occurrence);
        assert u.fires[i] == u.fires[|c.fires|];
      } else {
        StepKeepsHistory(parse, c, vs[0]);
        OnceExactlyIfClean(parse, u, vs[1..]);
      }
    }
  }

  /**
   For any number of engines and any interleaving, however locks expire or are stolen: no
   occurrence fires twice if and only if every insert of the run is Clean; and then a
   definition's jobs are for strictly increasing occurrences.
   */
  lemma FiresOnceExactlyIfClean(parse: Parser, c: Cluster, vs: seq<Event>)
    requires Parses(parse) && Start(c) && Legal(parse, c, vs)
    ensures Once(Exec(parse, c, vs).fires) <==> CleanRun(parse, c, vs)
    ensures CleanRun(parse, c, vs) ==> Increasing(Exec(parse, c, vs).fires)
  {
    OnceExactlyIfClean(parse, c, vs);
  }

  // ----- What makes every insert clean ------------------------------------------------------

  predicate Busy(g: Engine) {
    g.Firing? || g.Spawned?
  }

  /** The engine finds no entry under the lock's name, and gets it. */
  predicate Wins(c: Cluster, v: Event) {
    && v.TryLock? && v.e < |c.engines| && c.engines[v.e].Walking? && c.engines[v.e].todo != []
    && !L.Present(c.locks.store, c.locks.now, KeyOf(c.engines[v.e].at, c.engines[v.e].todo[0]))
  }

  /** The winner's occurrence is still the definition's next one: no update since its list was read. */
  predicate Fresh(c: Cluster, v: Event) {
    Wins(c, v) ==> NextIs(c, c.engines[v.e].todo[0])
  }

  /** No other engine is firing the winner's definition under another minute's lock. */
  predicate SameMinute(c: Cluster, v: Event) {
    Wins(c, v) ==>
      forall i :: 0 <= i < |c.engines| && Busy(c.engines[i]) && c.engines[i].due.id == c.engines[v.e].todo[0].id ==>
                    Minute(c.engines[i].at) == Minute(c.engines[v.e].at)
  }

  /** A spawned job's definition is advanced: the update is not lost, by an error or a crash. */
  predicate KeepsUpdate(c: Cluster, v: Event) {
    !v.LoseUpdate? && !(v.Crash? && v.e < |c.engines| && c.engines[v.e].Spawned?)
  }

  /** Which of the four are asked of a run; `timely`: no lock is held past its time to live. */
  datatype Care = Care(timely: bool, current: bool, minute: bool, update: bool)

  const ALL := Care(true, true, true, true)

  predicate InTime(care: Care, c: Cluster) {
    care.timely ==> L.Timely(c.locks)
  }

  predicate Careful(care: Care, c: Cluster, v: Event) {
    && (care.current ==> Fresh(c, v))
    && (care.minute ==> SameMinute(c, v))
    && (care.update ==> KeepsUpdate(c, v))
  }

  predicate CarefulRun(parse: Parser, care: Care, c: Cluster, vs: seq<Event>)
    requires Legal(parse, c, vs)
    decreases vs
  {
    && InTime(care, c)
    && (vs == [] || (Careful(care, c, vs[0]) && CarefulRun(parse, care, Step(parse, c, vs[0]), vs[1..])))
  }

  // ----- The invariant ----------------------------------------------------------------------

  /** Engine and lock process are at the same place. */
  predicate Agrees(g: Engine, p: L.Process) {
    match g
    case Resting => p == L.Idle
    case Walking(_, _) => p == L.Idle
    case Firing(at, due, _) => p.Holder? && p.phase == L.Inside && p.key == KeyOf(at, due)
    case Spawned(at, due, _) => p.Holder? && p.phase == L.Inside && p.key == KeyOf(at, due)
    case Releasing(_, _) => p.Holder? && p.phase != L.Inside
  }

  ghost predicate EnginesOk(c: Cluster) {
    && |c.engines| == |c.locks.procs|
    && (forall i :: 0 <= i < |c.engines| ==> Agrees(c.engines[i], c.locks.procs[i]))
    && (forall i :: 0 <= i < |c.engines| && Busy(c.engines[i]) ==> NextIs(c, c.engines[i].due))
    && (forall i, k :: 0 <= i < k < |c.engines| && Busy(c.engines[i]) && Busy(c.engines[k]) ==>
                         c.engines[i].due.id != c.engines[k].due.id)
  }

  ghost predicate Inv(c: Cluster) {
    L.Inv(c.locks) && c.locks.stolen == {} && EnginesOk(c) && c.lost == {}
  }

  lemma StepKeepsLocks(parse: Parser, c: Cluster, v: Event)
    requires Inv(c) && L.Timely(c.locks) && Enabled(parse, c, v)
    ensures L.Inv(Step(parse, c, v).locks) && Step(parse, c, v).locks.stolen == {}
  {
    if LockEvent(c, v).Some? {
      L.StepKeepsInv(c.locks, LockEvent(c, v).value);
      L.TimelyStepStealsNothing(c.locks, LockEvent(c, v).value);
    }
  }

  /** An engine that gets the lock is alone on its definition. */
  lemma WinnerIsAlone(parse: Parser, c: Cluster, v: Event, i: nat)
    requires Inv(c) && L.Timely(c.locks) && v.TryLock? && Enabled(parse, c, v) && SameMinute(c, v)
    requires i < |c.engines| && Busy(c.engines[i]) && c.engines[i].due.id == c.engines[v.e].todo[0].id
    ensures !Locks(c, v).procs[v.e].Holder?
  {
    assert Agrees(c.engines[i], c.locks.procs[i]);
    assert L.HolderOk(c.locks, c.locks.procs[i]);
    assert Agrees(c.engines[v.e], c.locks.procs[v.e]);
  }

  lemma EngineKept(parse: Parser, c: Cluster, v: Event, i: nat)
    requires EnginesOk(c) && Enabled(parse, c, v) && i < |c.engines|
    ensures var u := Step(parse, c, v);
            |u.engines| == |c.engines| == |u.locks.procs| && Agrees(u.engines[i], u.locks.procs[i])
  {
    assert Agrees(c.engines[i], c.locks.procs[i]);
  }

  /** A busy engine stays on its definition's next occurrence: only it may advance that. */
  lemma BusyKept(parse: Parser, c: Cluster, v: Event, i: nat)
    requires Inv(c) && L.Timely(c.locks) && Enabled(parse, c, v) && Fresh(c, v)
    requires i < |c.engines| && Busy(Step(parse, c, v).engines[i])
    ensures NextIs(Step(parse, c, v), Step(parse, c, v).engines[i].due)
  {
    if Busy(c.engines[i]) {
      OnlyOneOn(parse, c, v, i);
    } else {
      assert v.TryLock? && v.e == i;
      assert Agrees(c.engines[i], c.locks.procs[i]);
    }
  }

  lemma OnlyOneOn(parse: Parser, c: Cluster, v: Event, i: nat)
    requires Inv(c) && Enabled(parse, c, v) && i < |c.engines| && Busy(c.engines[i])
    ensures c.engines[i].due.id in c.defs && c.engines[i].due.id in Step(parse, c, v).defs
    ensures Busy(Step(parse, c, v).engines[i]) ==>
              && Step(parse, c, v).defs[c.engines[i].due.id].nextFire == c.defs[c.engines[i].due.id].nextFire
              && Step(parse, c, v).engines[i].due == c.engines[i].due
  {
    assert NextIs(c, c.engines[i].due);
    if v.Advance? && v.e != i {
      assert c.engines[v.e].due.id != c.engines[i].due.id;
    }
  }

  lemma EnginesKept(parse: Parser, c: Cluster, v: Event)
    requires Inv(c) && L.Timely(c.locks) && Enabled(parse, c, v) && Fresh(c, v) && SameMinute(c, v)
    ensures EnginesOk(Step(parse, c, v))
  {
    var u := Step(parse, c, v);
    forall i | 0 <= i < |u.engines|
      ensures Agrees(u.engines[i], u.locks.procs[i])
    {
      EngineKept(parse, c, v, i);
    }
    forall i | 0 <= i < |u.engines| && Busy(u.engines[i])
      ensures NextIs(u, u.engines[i].due)
    {
      BusyKept(parse, c, v, i);
    }
    forall i, k | 0 <= i < k < |u.engines| && Busy(u.engines[i]) && Busy(u.engines[k])
      ensures u.engines[i].due.id != u.engines[k].due.id
    {
      StayApart(parse, c, v, i, k);
    }
  }

  lemma StayApart(parse: Parser, c: Cluster, v: Event, i: nat, k: nat)
    requires Inv(c) && L.Timely(c.locks) && Enabled(parse, c, v) && SameMinute(c, v)
    requires i < k < |c.engines|
    requires Busy(Step(parse, c, v).engines[i]) && Busy(Step(parse, c, v).engines[k])
    ensures Step(parse, c, v).engines[i].due.id != Step(parse, c, v).engines[k].due.id
  {
    if Busy(c.engines[i]) && Busy(c.engines[k]) {
    } else {
      assert v.TryLock? && (v.e == i || v.e == k);
      var other := if v.e == i then k else i;
      if c.engines[other].due.id == c.engines[v.e].todo[0].id {
        WinnerIsAlone(parse, c, v, other);
      }
    }
  }

  lemma {:induction false} CarefulRunsAreClean(parse: Parser, c: Cluster, vs: seq<Event>)
    requires Inv(c) && Legal(parse, c, vs) && CarefulRun(parse, ALL, c, vs)
    ensures CleanRun(parse, c, vs)
    decreases vs
  {
    if vs != [] {
      var u := Step(parse, c, vs[0]);
      StepKeepsLocks(parse, c, vs[0]);
      EnginesKept(parse, c, vs[0]);
      assert u.lost == {};
      CarefulRunsAreClean(parse, u, vs[1..]);
      if vs[0].Spawn? {
        assert NextIs(c, c.engines[vs[0].e].due);
      }
    }
  }

  /**
   In every careful run, whatever the number of engines and the interleaving, a
   definition's jobs are for strictly increasing occurrences: no occurrence fires twice.
   */
  lemma NoOccurrenceFiresTwice(parse: Parser, c: Cluster, vs: seq<Event>)
    requires Parses(parse) && Start(c) && Legal(parse, c, vs) && CarefulRun(parse, ALL, c, vs)
    ensures Once(Exec(parse, c, vs).fires) && Increasing(Exec(parse, c, vs).fires)
  {
    CarefulRunsAreClean(parse, c, vs);
    FiresOnceExactlyIfClean(parse, c, vs);
  }

  // ----- Each condition is needed -----------------------------------------------------------

  lemma Prepend(parse: Parser, care: Care, c: Cluster, v: Event, vs: seq<Event>)
    requires Enabled(parse, c, v) && InTime(care, c) && Careful(care, c, v)
    requires Legal(parse, Step(parse, c, v), vs) && CarefulRun(parse, care, Step(parse, c, v), vs)
    ensures Legal(parse, c, [v] + vs) && CarefulRun(parse, care, c, [v] + vs)
    ensures Exec(parse, c, [v] + vs) == Exec(parse, Step(parse, c, v), vs)
  {
    assert ([v] + vs)[1..] == vs;
  }

  lemma {:induction false} RunsCompose(parse: Parser, care: Care, c: Cluster, a: seq<Event>, b: seq<Event>)
    requires Legal(parse, c, a) && CarefulRun(parse, care, c, a)
    requires Legal(parse, Exec(parse, c, a), b) && CarefulRun(parse, care, Exec(parse, c, a), b)
    ensures Legal(parse, c, a + b) && CarefulRun(parse, care, c, a + b)
    ensures Exec(parse, c, a + b) == Exec(parse, Exec(parse, c, a), b)
    decreases a
  {
    if a == [] {
      assert a + b == b;
    } else {
      assert (a + b)[0] == a[0] && (a + b)[1..] == a[1..] + b;
      RunsCompose(parse, care, Step(parse, c, a[0]), a[1..], b);
    }
  }

  /** One definition and two engines. */
  function Pair(now: Time, store: map<L.Key, L.Entry>, p: L.Process, q: L.Process, used: set<L.Token>,
                d: Definition, g: Engine, h: Engine, fires: seq<Fire>): Cluster {
    Cluster(L.State(now, store, [p, q], used, {}), map[0 := d], [g, h], fires, {})
  }

  /** The lock and the job, for an engine that walks its list. */
  lemma LockAndSpawn(parse: Parser, care: Care, c: Cluster, e: nat, token: L.Token, ttl: Time) returns (vs: seq<Event>)
    requires Enabled(parse, c, TryLock(e, token, ttl)) && Careful(care, c, TryLock(e, token, ttl))
    requires InTime(care, c) && |c.engines| == |c.locks.procs|
    requires !L.Present(c.locks.store, c.locks.now, KeyOf(c.engines[e].at, c.engines[e].todo[0]))
    requires c.engines[e].todo[0].id in c.defs && parse(c.defs[c.engines[e].todo[0].id].expr).Some?
    ensures Legal(parse, c, vs) && CarefulRun(parse, care, c, vs)
    ensures var g := c.engines[e];
            var key := KeyOf(g.at, g.todo[0]);
            Exec(parse, c, vs)
            == Cluster(c.locks.(store := c.locks.store[key := L.Entry(token, c.locks.now + ttl)],
                                procs := c.locks.procs[e := L.Holder(L.Inside, key, token, c.locks.now + ttl)],
                                used := c.locks.used + {token}),
                       c.defs, c.engines[e := Spawned(g.at, g.todo[0], g.todo[1..])],
                       c.fires + [Fire(g.todo[0].id, g.todo[0].occurrence)], c.lost)
  {
    var c1 := Step(parse, c, TryLock(e, token, ttl));
    var c2 := Step(parse, c1, Spawn(e));
    assert Legal(parse, c2, []) && CarefulRun(parse, care, c2, []);
    Prepend(parse, care, c1, Spawn(e), []);
    Prepend(parse, care, c, TryLock(e, token, ttl), [Spawn(e)] + []);
    vs := [TryLock(e, token, ttl)] + ([Spawn(e)] + []);
    assert c2.engines == c.engines[e := Spawned(c.engines[e].at, c.engines[e].todo[0], c.engines[e].todo[1..])];
  }

  /** The function returns, by the event v, and engine 0 gives its lock back. */
  lemma Release(parse: Parser, care: Care, c: Cluster, v: Event) returns (vs: seq<Event>)
    requires (v == Advance(0) || v == LoseUpdate(0)) && Enabled(parse, c, v) && Careful(care, c, v)
    requires L.Timely(c.locks) && |c.engines| == |c.locks.procs| && 0 < |c.engines| && c.engines[0].Spawned?
    requires c.locks.procs[0].Holder? && L.Owned(c.locks, c.locks.procs[0])
    ensures Legal(parse, c, vs) && CarefulRun(parse, care, c, vs)
    ensures Exec(parse, c, vs)
            == Cluster(c.locks.(store := c.locks.store - {c.locks.procs[0].key}, procs := c.locks.procs[0 := L.Idle]),
                       Step(parse, c, v).defs,
                       c.engines[0 := Walking(c.engines[0].at, c.engines[0].todo)], c.fires,
                       Step(parse, c, v).lost)
  {
    var c1 := Step(parse, c, v);
    var c2 := Step(parse, c1, ReleaseGet(0));
    var c3 := Step(parse, c2, ReleaseDel(0));
    assert L.Stolen(c2.locks, 0) == {} && c3.locks.stolen == c.locks.stolen;
    assert c3.locks.procs == c.locks.procs[0 := L.Idle];
    assert c3.engines == c.engines[0 := Walking(c.engines[0].at, c.engines[0].todo)];
    assert Legal(parse, c3, []) && CarefulRun(parse, care, c3, []);
    Prepend(parse, care, c2, ReleaseDel(0), []);
    Prepend(parse, care, c1, ReleaseGet(0), [ReleaseDel(0)] + []);
    Prepend(parse, care, c, v, [ReleaseGet(0)] + ([ReleaseDel(0)] + []));
    vs := [v] + ([ReleaseGet(0)] + ([ReleaseDel(0)] + []));
  }

  /** Both engines list the definition at the same moment. */
  lemma BothList(parse: Parser, care: Care, d: Definition, now: Time) returns (vs: seq<Event>)
    requires IsDue(d, now)
    ensures var c := Pair(now, map[], L.Idle, L.Idle, {}, d, Resting, Resting, []);
            var w := Walking(now, [Due(0, d.nextFire.value)]);
            && Start(c) && Legal(parse, c, vs) && CarefulRun(parse, care, c, vs)
            && Exec(parse, c, vs) == Pair(now, map[], L.Idle, L.Idle, {}, d, w, w, [])
  {
    var due := Due(0, d.nextFire.value);
    var w := Walking(now, [due]);
    var c := Pair(now, map[], L.Idle, L.Idle, {}, d, Resting, Resting, []);
    var c1 := Pair(now, map[], L.Idle, L.Idle, {}, d, w, Resting, []);
    var c2 := Pair(now, map[], L.Idle, L.Idle, {}, d, w, w, []);
    assert Legal(parse, c2, []) && CarefulRun(parse, care, c2, []);
    Prepend(parse, care, c1, List(1, now, [due]), []);
    Prepend(parse, care, c, List(0, now, [due]), [List(1, now, [due])] + []);
    vs := [List(0, now, [due])] + ([List(1, now, [due])] + []);
  }

  /** Engine 0 holds the lock of its minute and has spawned; engine 1 is at g. */
  function FirstSpawned(d: Definition, now: Time, ttl: Time, g: Engine): Cluster
    requires IsDue(d, now)
  {
    var due := Due(0, d.nextFire.value);
    var key := KeyOf(now, due);
    Pair(now, map[key := L.Entry(0, now + ttl)], L.Holder(L.Inside, key, 0, now + ttl), L.Idle, {0}, d,
         Spawned(now, due, []), g, [Fire(0, d.nextFire.value)])
  }

  lemma FirstSpawns(parse: Parser, care: Care, d: Definition, now: Time, ttl: Time, g: Engine) returns (vs: seq<Event>)
    requires parse(d.expr).Some? && IsDue(d, now) && ttl > 0 && !Busy(g)
    ensures var w := Walking(now, [Due(0, d.nextFire.value)]);
            var c := Pair(now, map[], L.Idle, L.Idle, {}, d, w, g, []);
            && Legal(parse, c, vs) && CarefulRun(parse, care, c, vs)
            && Exec(parse, c, vs) == FirstSpawned(d, now, ttl, g)
  {
    var due := Due(0, d.nextFire.value);
    var c := Pair(now, map[], L.Idle, L.Idle, {}, d, Walking(now, [due]), g, []);
    vs := LockAndSpawn(parse, care, c, 0, 0, ttl);
    var u := Exec(parse, c, vs);
    assert [due][1..] == [];
    assert u.engines == FirstSpawned(d, now, ttl, g).engines;
    assert u.locks == FirstSpawned(d, now, ttl, g).locks;
  }

  /**
   A stale due list, or an update that is lost: engine 1 fires what engine 0 has fired,
   although the locks are timely, the minute is the same and the other condition holds.
   */
  lemma SecondFire(parse: Parser, d: Definition, now: Time, ttl: Time, lost: bool) returns (c: Cluster, vs: seq<Event>)
    requires parse(d.expr).Some? && IsDue(d, now) && ttl > 0
    ensures Start(c) && Legal(parse, c, vs) && CarefulRun(parse, Care(true, lost, true, !lost), c, vs)
    ensures Exec(parse, c, vs).fires == [Fire(0, d.nextFire.value), Fire(0, d.nextFire.value)]
  {
    var care := Care(true, lost, true, !lost);
    var w := Walking(now, [Due(0, d.nextFire.value)]);
    c := Pair(now, map[], L.Idle, L.Idle, {}, d, Resting, Resting, []);
    var a := BothList(parse, care, d, now);
    var c1 := Pair(now, map[], L.Idle, L.Idle, {}, d, w, w, []);
    var b := FirstSpawns(parse, care, d, now, ttl, w);
    var e := OtherSpawnsAfterRelease(parse, d, now, ttl, lost);
    RunsCompose(parse, care, c1, b, e);
    RunsCompose(parse, care, c, a, b + e);
    vs := a + (b + e);
  }

  lemma OtherSpawnsAfterRelease(parse: Parser, d: Definition, now: Time, ttl: Time, lost: bool) returns (vs: seq<Event>)
    requires parse(d.expr).Some? && IsDue(d, now) && ttl > 0
    ensures var c := FirstSpawned(d, now, ttl, Walking(now, [Due(0, d.nextFire.value)]));
            && Legal(parse, c, vs) && CarefulRun(parse, Care(true, lost, true, !lost), c, vs)
            && Exec(parse, c, vs).fires == [Fire(0, d.nextFire.value), Fire(0, d.nextFire.value)]
  {
    var care := Care(true, lost, true, !lost);
    var c := FirstSpawned(d, now, ttl, Walking(now, [Due(0, d.nextFire.value)]));
    var a := Release(parse, care, c, if lost then LoseUpdate(0) else Advance(0));
    var c1 := Exec(parse, c, a);
    assert 0 in c1.defs && c1.defs[0].expr == d.expr;
    assert lost ==> c1.defs[0] == d;
    var b := LockAndSpawn(parse, care, c1, 1, 1, ttl);
    RunsCompose(parse, care, c, a, b);
    vs := a + b;
  }

  /** Two engines either side of a full minute take different locks and both fire. */
  lemma TwoMinutesFireTwice(parse: Parser, d: Definition, now: Time, ttl: Time) returns (c: Cluster, vs: seq<Event>)
    requires parse(d.expr).Some? && IsDue(d, now) && ttl > SECOND && Minute(now) != Minute(now + SECOND)
    ensures Start(c) && Legal(parse, c, vs) && CarefulRun(parse, Care(true, true, false, true), c, vs)
    ensures Exec(parse, c, vs).fires == [Fire(0, d.nextFire.value), Fire(0, d.nextFire.value)]
  {
    var care := Care(true, true, false, true);
    var due := Due(0, d.nextFire.value);
    c := Pair(now, map[], L.Idle, L.Idle, {}, d, Resting, Resting, []);
    var c1 := Pair(now, map[], L.Idle, L.Idle, {}, d, Walking(now, [due]), Resting, []);
    var a := FirstSpawns(parse, care, d, now, ttl, Resting);
    var b := OtherMinuteSpawns(parse, d, now, ttl);
    RunsCompose(parse, care, c1, a, b);
    FirstLists(parse, d, now);
    Prepend(parse, care, c, List(0, now, [due]), a + b);
    vs := [List(0, now, [due])] + (a + b);
  }

  lemma FirstLists(parse: Parser, d: Definition, now: Time)
    requires IsDue(d, now)
    ensures var due, c := Due(0, d.nextFire.value), Pair(now, map[], L.Idle, L.Idle, {}, d, Resting, Resting, []);
            && Start(c) && Enabled(parse, c, List(0, now, [due]))
            && Step(parse, c, List(0, now, [due]))
               == Pair(now, map[], L.Idle, L.Idle, {}, d, Walking(now, [due]), Resting, [])
  {
  }

  lemma OtherMinuteSpawns(parse: Parser, d: Definition, now: Time, ttl: Time) returns (vs: seq<Event>)
    requires parse(d.expr).Some? && IsDue(d, now) && ttl > SECOND && Minute(now) != Minute(now + SECOND)
    ensures var c := FirstSpawned(d, now, ttl, Resting);
            && Legal(parse, c, vs) && CarefulRun(parse, Care(true, true, false, true), c, vs)
            && Exec(parse, c, vs).fires == [Fire(0, d.nextFire.value), Fire(0, d.nextFire.value)]
  {
    var care := Care(true, true, false, true);
    var due := Due(0, d.nextFire.value);
    var c := FirstSpawned(d, now, ttl, Resting);
    var c1 := Step(parse, c, Wait(now + SECOND));
    var c2 := Step(parse, c1, List(1, now + SECOND, [due]));
    var a := LockAndSpawn(parse, care, c2, 1, 1, ttl);
    Prepend(parse, care, c1, List(1, now + SECOND, [due]), a);
    Prepend(parse, care, c, Wait(now + SECOND), [List(1, now + SECOND, [due])] + a);
    vs := [Wait(now + SECOND)] + ([List(1, now + SECOND, [due])] + a);
  }

  /** A lock that expires while its engine is at work lets another engine fire beside it. */
  lemma ExpiredLockFiresTwice(parse: Parser, d: Definition, now: Time, ttl: Time)
    returns (c: Cluster, vs: seq<Event>)
    requires parse(d.expr).Some? && IsDue(d, now) && ttl > 0
    ensures Start(c) && Legal(parse, c, vs) && CarefulRun(parse, Care(false, true, true, true), c, vs)
    ensures Exec(parse, c, vs).fires == [Fire(0, d.nextFire.value), Fire(0, d.nextFire.value)]
  {
    var care := Care(false, true, true, true);
    var w := Walking(now, [Due(0, d.nextFire.value)]);
    c := Pair(now, map[], L.Idle, L.Idle, {}, d, Resting, Resting, []);
    var c1 := Pair(now, map[], L.Idle, L.Idle, {}, d, w, w, []);
    var c2 := FirstSpawned(d, now, ttl, w);
    var c3 := Step(parse, c2, Wait(now + ttl));
    var a := BothList(parse, care, d, now);
    var b := FirstSpawns(parse, care, d, now, ttl, w);
    var e := LockAndSpawn(parse, care, c3, 1, 1, ttl);
    Prepend(parse, care, c2, Wait(now + ttl), e);
    RunsCompose(parse, care, c1, b, [Wait(now + ttl)] + e);
    RunsCompose(parse, care, c, a, b + ([Wait(now + ttl)] + e));
    vs := a + (b + ([Wait(now + ttl)] + e));
  }
}
