/**
 The whole system on one clock: the world of Lifecycle, whose executions are now jobs of
 worker nodes as NodeTiming has them. Nodes start and crash at any time. The bounds on a
 claim and on an execution are all that is asked of them, and take the place of the
 hypothesis that reaps are in time. A claim commits when it returns to its node.
 */
module Deployment {
  import opened Domain
  import opened Ordering
  import opened Support
  import L = Lifecycle
  import Q = LifecycleTheorems
  import Store
  import T = NodeTiming
  import W = WorkerNode

  /** executions[k] is what the job clock.node.claimed[k] stands for. */
  datatype Host = Host(clock: T.TimedNode, executions: seq<L.Execution>)

  datatype System = System(world: L.World, hosts: map<Id, Host>)

  datatype Event =
    | Pass(to: Time)
    | Boot(worker: Id, clock: T.TimedNode)
    | Inside(worker: Id, action: W.Event)
    | Claims(worker: Id, batch: seq<W.Token>, ids: seq<Id>, at: Time)
    | Ends(worker: Id, i: nat, k: nat, last: L.Event)
    | Fails(worker: Id)
    | Outside(other: L.Event)

  /** What the event is in the world, if anything. */
  function InWorld(e: Event): seq<L.Event> {
    match e
    case Pass(to) => [L.Tick(to)]
    case Claims(worker, _, ids, at) => [L.ClaimJobs(worker, Elements(ids), at)]
    case Ends(_, _, _, last) => [last]
    case Fails(worker) => [L.Crash(worker)]
    case Outside(other) => [other]
    case _ => []
  }

  /** What the event is on the clock of its node, if it is a step there. */
  function OnClock(now: Time, e: Event): Option<T.Event> {
    match e
    case Inside(_, action) => Some(T.Do(action, now))
    case Claims(_, batch, _, at) => Some(T.Do(W.Claim(batch), at))
    case Ends(_, i, _, _) => Some(T.Do(W.Finish(i), now))
    case _ => None
  }

  ghost predicate Enabled(lim: T.Limits, s: System, e: Event) {
    && (InWorld(e) != [] ==> L.Enabled(s.world, InWorld(e)[0]))
    && (OnClock(s.world.now, e).Some? ==>
          e.worker in s.hosts && T.Enabled(lim, s.hosts[e.worker].clock, OnClock(s.world.now, e).value))
    && match e
       case Pass(to) => forall w :: w in s.hosts ==> T.Enabled(lim, s.hosts[w].clock, T.Pass(to))
       case Boot(worker, clock) => worker !in s.hosts && T.Start(clock) && clock.now == s.world.now
       case Inside(_, action) => !action.Claim? && !action.Finish?
       case Claims(_, batch, ids, _) => |batch| == |ids| && Distinct(ids)
       case Ends(worker, i, k, last) =>
         var h := s.hosts[worker];
         && (last.Finish? || last.LoseWrite?)
         && k < |h.executions| && k < |h.clock.node.claimed|
         && h.executions[k] == last.execution && h.clock.node.claimed[k] == h.clock.node.workers[i].job
       case Fails(_) => true
       case Outside(other) =>
         || other.Enqueue? || other.CancelJob? || other.ReadForRetry? || other.WriteRetry?
         || other.PromoteDue? || other.Reap?
  }

  /** The executions that a claim starts. */
  function Started(w: L.World, worker: Id, ids: seq<Id>, at: Time): seq<L.Execution>
    requires forall id :: id in ids ==> id in w.table
  {
    seq(|ids|, i requires 0 <= i < |ids| => L.Execution(ids[i], worker, at, w.now, w.table[ids[i]]))
  }

  /** The host whose clock the event moves. */
  ghost function NextHost(lim: T.Limits, s: System, e: Event): Host
    requires Enabled(lim, s, e) && OnClock(s.world.now, e).Some?
  {
    var h := s.hosts[e.worker];
    var clock := T.Step(lim, h.clock, OnClock(s.world.now, e).value);
    if e.Claims? then
      assert forall id :: id in e.ids ==> id in Elements(e.ids);
      Host(clock, h.executions + Started(s.world, e.worker, e.ids, e.at))
    else Host(clock, h.executions)
  }

  /** The execution's node goes down when computing the backoff panics. */
  ghost predicate Panics(visibility: int, s: System, e: Event) {
    e.Ends? && e.last.Finish? && L.Statement(visibility, s.world, e.last) == None
  }

  ghost function NextHosts(lim: T.Limits, visibility: int, s: System, e: Event): map<Id, Host>
    requires Enabled(lim, s, e)
  {
    if OnClock(s.world.now, e).Some? then
      if Panics(visibility, s, e) then s.hosts - {e.worker} else s.hosts[e.worker := NextHost(lim, s, e)]
    else
      match e
      case Pass(to) => map w | w in s.hosts :: Host(s.hosts[w].clock.(now := to), s.hosts[w].executions)
      case Boot(worker, clock) => s.hosts[worker := Host(clock, [])]
      case Fails(worker) => s.hosts - {worker}
      case _ => s.hosts
  }

  ghost function Step(lim: T.Limits, visibility: int, s: System, e: Event): System
    requires Enabled(lim, s, e)
  {
    System(L.Exec(visibility, s.world, InWorld(e)), NextHosts(lim, visibility, s, e))
  }

  ghost predicate Legal(lim: T.Limits, visibility: int, s: System, es: seq<Event>)
    decreases es
  {
    es == [] || (Enabled(lim, s, es[0]) && Legal(lim, visibility, Step(lim, visibility, s, es[0]), es[1..]))
  }

  ghost function Exec(lim: T.Limits, visibility: int, s: System, es: seq<Event>): System
    requires Legal(lim, visibility, s, es)
    decreases es
  {
    if es == [] then s else Exec(lim, visibility, Step(lim, visibility, s, es[0]), es[1..])
  }

  ghost predicate Start(s: System) {
    L.Start(s.world) && s.hosts == map[]
  }

  // ----- The invariant ------------------------------------------------------------------

  ghost predicate HostOk(lim: T.Limits, now: Time, worker: Id, h: Host) {
    && T.Inv(lim, h.clock) && h.clock.now == now
    && |h.executions| == |h.clock.node.claimed| == |h.clock.taken|
    && forall k :: 0 <= k < |h.executions| ==>
                     h.executions[k].worker == worker && h.executions[k].claimedAt == h.clock.taken[k]
  }

  /** The execution is an unfinished job of the host. */
  predicate Hosts(h: Host, x: L.Execution) {
    exists k :: 0 <= k < |h.executions| && k < |h.clock.node.claimed|
                && h.executions[k] == x && h.clock.node.claimed[k] !in h.clock.node.done
  }

  ghost predicate Inv(lim: T.Limits, s: System) {
    && (forall w :: w in s.hosts ==> HostOk(lim, s.world.now, w, s.hosts[w]))
    && (forall x :: x in s.world.live ==> x.worker in s.hosts && Hosts(s.hosts[x.worker], x))
  }

  lemma ClockKept(lim: T.Limits, s: System, e: Event)
    requires Inv(lim, s) && Enabled(lim, s, e) && OnClock(s.world.now, e).Some?
    ensures HostOk(lim, s.world.now, e.worker, NextHost(lim, s, e))
  {
    var h, step := s.hosts[e.worker], OnClock(s.world.now, e).value;
    assert HostOk(lim, s.world.now, e.worker, h);
    T.DoKeepsInv(lim, h.clock, step);
    OneTakenPerClaimed(lim, h.clock, step);
  }

  lemma OneTakenPerClaimed(lim: T.Limits, t: T.TimedNode, e: T.Event)
    requires e.Do? && T.Enabled(lim, t, e) && |t.taken| == |t.node.claimed|
    ensures var u, n := T.Step(lim, t, e), |t.taken|;
            && |u.taken| == |u.node.claimed| && |u.taken| == n + (if e.action.Claim? then |e.action.batch| else 0)
            && forall k :: 0 <= k < |u.taken| ==> u.taken[k] == if k < n then t.taken[k] else e.at
  {
  }

  lemma HostsKept(lim: T.Limits, visibility: int, s: System, e: Event)
    requires Inv(lim, s) && Enabled(lim, s, e)
    ensures var u := Step(lim, visibility, s, e);
            forall w :: w in u.hosts ==> HostOk(lim, u.world.now, w, u.hosts[w])
  {
    var u := Step(lim, visibility, s, e);
    NowInWorld(lim, visibility, s, e);
    forall w | w in u.hosts
      ensures HostOk(lim, u.world.now, w, u.hosts[w])
    {
      if OnClock(s.world.now, e).Some? && w == e.worker {
        ClockKept(lim, s, e);
      } else if e.Boot? && w == e.worker {
        T.StartIsInv(lim, e.clock);
      } else {
        assert HostOk(lim, s.world.now, w, s.hosts[w]);
        if e.Pass? {
          T.PassKeepsInv(lim, s.hosts[w].clock, e.to);
        }
      }
    }
  }

  lemma NowInWorld(lim: T.Limits, visibility: int, s: System, e: Event)
    requires Enabled(lim, s, e)
    ensures Step(lim, visibility, s, e).world
            == if InWorld(e) == [] then s.world else L.Step(visibility, s.world, InWorld(e)[0])
    ensures Step(lim, visibility, s, e).world.now == if e.Pass? then e.to else s.world.now
  {
    if InWorld(e) != [] {
      var v := L.Step(visibility, s.world, InWorld(e)[0]);
      assert InWorld(e)[1..] == [];
      assert L.Exec(visibility, v, []) == v;
    }
  }

  /** A job of the node that is not finished by the event stays its unfinished job. */
  lemma StaysHosted(lim: T.Limits, s: System, e: Event, x: L.Execution)
    requires Inv(lim, s) && Enabled(lim, s, e) && OnClock(s.world.now, e).Some?
    requires Hosts(s.hosts[e.worker], x) && (e.Ends? ==> x != e.last.execution)
    ensures Hosts(NextHost(lim, s, e), x)
  {
    var h, u := s.hosts[e.worker], NextHost(lim, s, e);
    assert HostOk(lim, s.world.now, e.worker, h);
    var k :| 0 <= k < |h.executions| && h.executions[k] == x && h.clock.node.claimed[k] !in h.clock.node.done;
    if e.Ends? {
      assert k != e.k && h.clock.node.claimed[k] != h.clock.node.claimed[e.k];
    }
    StaysUndone(lim, h.clock.node, OnClock(s.world.now, e).value.action, k);
    assert u.executions[k] == x;
  }

  lemma StaysUndone(lim: T.Limits, n: W.Node, a: W.Event, k: nat)
    requires W.Enabled(lim.batch, n, a) && k < |n.claimed| && n.claimed[k] !in n.done
    requires a.Finish? ==> n.workers[a.worker].job != n.claimed[k]
    ensures var u := W.Step(lim.batch, n, a);
            k < |u.claimed| && u.claimed[k] == n.claimed[k] && u.claimed[k] !in u.done
  {
  }

  lemma ClaimedAreHosted(lim: T.Limits, visibility: int, s: System, e: Event, x: L.Execution)
    requires Inv(lim, s) && Enabled(lim, s, e) && e.Claims?
    requires x in L.NextLive(visibility, s.world, InWorld(e)[0]) && x !in s.world.live
    ensures x.worker == e.worker && Hosts(NextHost(lim, s, e), x)
  {
    var h, u := s.hosts[e.worker], NextHost(lim, s, e);
    assert HostOk(lim, s.world.now, e.worker, h);
    var i :| 0 <= i < |e.ids| && x.id == e.ids[i];
    var k := |h.executions| + i;
    assert u.executions[k] == x && u.clock.node.claimed[k] == e.batch[i];
    NewIsUndone(lim, h.clock, e.batch, i);
  }

  lemma NewIsUndone(lim: T.Limits, t: T.TimedNode, batch: seq<W.Token>, i: nat)
    requires T.Inv(lim, t) && Distinct(t.node.claimed + batch) && i < |batch|
    ensures batch[i] !in t.node.done
  {
    var all := t.node.claimed + batch;
    forall r | 0 <= r < |t.node.received|
      ensures t.node.received[r] != batch[i]
    {
      assert all[r] == t.node.received[r] && all[|t.node.claimed| + i] == batch[i];
    }
    if batch[i] in t.node.done {
      DoneWasReceived(lim, t, batch[i]);
    }
  }

  lemma DoneWasReceived(lim: T.Limits, t: T.TimedNode, job: W.Token)
    requires T.Inv(lim, t) && job in t.node.done
    ensures job in t.node.received
  {
    assert job in multiset(t.node.done);
    SumNonNegative(t.node.workers, W.HoldsJob(job));
    assert W.Times(t.node.received, job) >= W.Times(t.node.done, job) > 0;
  }

  /** What lives on through the event is neither ended by it nor on a node it takes down. */
  lemma WhatLivesOn(lim: T.Limits, visibility: int, s: System, e: Event, x: L.Execution)
    requires Enabled(lim, s, e) && x in s.world.live && x in Step(lim, visibility, s, e).world.live
    ensures e.Ends? ==> x != e.last.execution
    ensures Panics(visibility, s, e) ==> x.worker != s.hosts[e.worker].executions[e.k].worker
    ensures e.Fails? ==> x.worker != e.worker
  {
    NowInWorld(lim, visibility, s, e);
  }

  lemma LiveKept(lim: T.Limits, visibility: int, s: System, e: Event, x: L.Execution)
    requires Inv(lim, s) && Enabled(lim, s, e) && x in s.world.live
    requires x in Step(lim, visibility, s, e).world.live
    ensures var u := Step(lim, visibility, s, e);
            x.worker in u.hosts && Hosts(u.hosts[x.worker], x)
  {
    WhatLivesOn(lim, visibility, s, e, x);
    assert Hosts(s.hosts[x.worker], x);
    if OnClock(s.world.now, e).Some? {
      assert HostOk(lim, s.world.now, e.worker, s.hosts[e.worker]);
      if x.worker == e.worker {
        StaysHosted(lim, s, e, x);
      }
    }
  }

  lemma NewLiveHosted(lim: T.Limits, visibility: int, s: System, e: Event, x: L.Execution)
    requires Inv(lim, s) && Enabled(lim, s, e) && x !in s.world.live
    requires x in Step(lim, visibility, s, e).world.live
    ensures var u := Step(lim, visibility, s, e);
            x.worker in u.hosts && Hosts(u.hosts[x.worker], x)
  {
    NowInWorld(lim, visibility, s, e);
    assert e.Claims?;
    ClaimedAreHosted(lim, visibility, s, e, x);
  }

  lemma StepKeepsInv(lim: T.Limits, visibility: int, s: System, e: Event)
    requires Inv(lim, s) && Enabled(lim, s, e)
    ensures Inv(lim, Step(lim, visibility, s, e))
  {
    HostsKept(lim, visibility, s, e);
    forall x | x in Step(lim, visibility, s, e).world.live
      ensures x.worker in Step(lim, visibility, s, e).hosts
      ensures Hosts(Step(lim, visibility, s, e).hosts[x.worker], x)
    {
      if x in s.world.live {
        LiveKept(lim, visibility, s, e, x);
      } else {
        NewLiveHosted(lim, visibility, s, e, x);
      }
    }
  }

  /** The visibility timeout covers three executions, and a claim and an execution. */
  predicate LongEnough(lim: T.Limits, visibility: int) {
    Store.WholeSeconds(visibility) * SECOND >= T.Bound(lim)
  }

  lemma AlwaysTimely(lim: T.Limits, visibility: int, s: System)
    requires Inv(lim, s) && LongEnough(lim, visibility)
    ensures L.Timely(visibility, s.world)
  {
    forall x | x in s.world.live
      ensures s.world.now <= x.claimedAt + Store.WholeSeconds(visibility) * SECOND
    {
      var h := s.hosts[x.worker];
      assert HostOk(lim, s.world.now, x.worker, h) && Hosts(h, x);
      var k :| 0 <= k < |h.executions| && h.executions[k] == x && h.clock.node.claimed[k] !in h.clock.node.done;
      T.UnfinishedIsRecent(lim, h.clock, k);
    }
  }

  // ----- Theorems -------------------------------------------------------------------------

  /** The world's part of a run. */
  function Worldly(es: seq<Event>): seq<L.Event> {
    if es == [] then [] else InWorld(es[0]) + Worldly(es[1..])
  }

  /** Every retry's write in the run finds what the care asks for. */
  ghost predicate RetriesFind(care: L.Care, lim: T.Limits, visibility: int, s: System, es: seq<Event>)
    requires Legal(lim, visibility, s, es)
    decreases es
  {
    es == []
    || ((es[0].Outside? ==> L.Finds(care, s.world, es[0].other))
        && RetriesFind(care, lim, visibility, Step(lim, visibility, s, es[0]), es[1..]))
  }

  lemma {:induction false} RunsAreProper(care: L.Care, lim: T.Limits, visibility: int, s: System, es: seq<Event>)
    requires Inv(lim, s) && LongEnough(lim, visibility)
    requires Legal(lim, visibility, s, es) && RetriesFind(care, lim, visibility, s, es)
    ensures L.ProperRun(care, visibility, s.world, Worldly(es))
    ensures L.Exec(visibility, s.world, Worldly(es)) == Exec(lim, visibility, s, es).world
    decreases es
  {
    if es != [] {
      var e, u := es[0], Step(lim, visibility, s, es[0]);
      AlwaysTimely(lim, visibility, s);
      StepKeepsInv(lim, visibility, s, e);
      NowInWorld(lim, visibility, s, e);
      RunsAreProper(care, lim, visibility, u, es[1..]);
      OneMoreInWorld(care, visibility, s.world, InWorld(e), Worldly(es[1..]));
    }
  }

  /** A run of the world after at most one proper event. */
  lemma OneMoreInWorld(care: L.Care, visibility: int, w: L.World, first: seq<L.Event>, rest: seq<L.Event>)
    requires |first| <= 1
    requires first != [] ==> L.Enabled(w, first[0]) && L.Proper(care, visibility, w, first[0])
    requires L.ProperRun(care, visibility, L.Exec(visibility, w, first), rest)
    ensures L.ProperRun(care, visibility, w, first + rest)
    ensures L.Exec(visibility, w, first + rest) == L.Exec(visibility, L.Exec(visibility, w, first), rest)
  {
    if first == [] {
      assert first + rest == rest;
    } else {
      assert (first + rest)[1..] == rest && first[1..] == [];
      assert L.Exec(visibility, w, first) == L.Exec(visibility, L.Step(visibility, w, first[0]), []);
    }
  }

  /**
   With a long enough visibility timeout every run of the whole system is proper in its
   world. So in every world of it each execution is the only one of its job and the one
   its row names, as long as no retry's write finds its job being executed.
   */
  lemma LongEnoughIsSole(lim: T.Limits, visibility: int, s: System, es: seq<Event>)
    requires Start(s) && LongEnough(lim, visibility) && Legal(lim, visibility, s, es)
    requires RetriesFind(L.Unexecuted, lim, visibility, s, es)
    ensures L.ProperRun(L.Unexecuted, visibility, s.world, Worldly(es))
    ensures Q.AlwaysSole(visibility, s.world, Worldly(es))
    ensures L.Exec(visibility, s.world, Worldly(es)) == Exec(lim, visibility, s, es).world
  {
    RunsAreProper(L.Unexecuted, lim, visibility, s, es);
    ProperIsLegal(L.Unexecuted, visibility, s.world, Worldly(es));
    Q.SoleExactlyIfProper(visibility, s.world, Worldly(es));
  }

  lemma {:induction false} ProperIsLegal(care: L.Care, visibility: int, w: L.World, es: seq<L.Event>)
    requires L.ProperRun(care, visibility, w, es)
    ensures L.Legal(visibility, w, es)
    decreases es
  {
    if es != [] {
      ProperIsLegal(care, visibility, L.Step(visibility, w, es[0]), es[1..]);
    }
  }
}
