/**
 ClaimBatch as the multi-step READ COMMITTED transaction it is: count the running
 rows, lock eligible rows skipping locked ones, update them, commit. Any number of
 nodes run it at the same time, interleaved with every other statement.

 The count is taken once and can be out of date by the commit, so the limit of a
 queue can be overshot; how far is proved exactly. The row locks make the
 transactions serializable nevertheless.
 */
module ClaimProtocol {
  import opened Domain
  import opened Stats
  import opened Store
  import opened Support

  /**
   A claim in flight: `at` is NOW(), fixed when the transaction began; `budget` is the
   LIMIT it computed from its count; `ids` are the rows it holds locked.
   */
  datatype Txn = Txn(queue: Id, at: Time, budget: nat, ids: set<Id>, updated: bool)

  /** Nodes are 0 .. |txns|; a node's dispatcher has at most one claim in flight. */
  datatype Cluster = Cluster(table: Table, txns: seq<Option<Txn>>)

  /** The queues' fixed concurrency limits and the largest claim size of any node. */
  datatype Config = Config(limits: map<Id, nat>, batch: nat)

  datatype Event =
    | Count(node: nat, queue: Id, size: nat, at: Time)
    | Lock(node: nat, rows: set<Id>)
    | Write(node: nat)
    | Commit(node: nat)
    | Rollback(node: nat)
    | Other(op: Op)

  predicate Open(s: Cluster, node: nat) {
    node < |s.txns| && s.txns[node].Some?
  }

  function Locked(s: Cluster): set<Id> {
    set i, id | 0 <= i < |s.txns| && s.txns[i].Some? && id in s.txns[i].value.ids :: id
  }

  predicate Enabled(c: Config, s: Cluster, e: Event) {
    match e
    case Count(node, queue, size, _) =>
      node < |s.txns| && s.txns[node] == None && queue in c.limits && size <= c.batch
    case Lock(node, rows) =>
      // SKIP LOCKED passes over held rows; a row that changed since is checked again.
      && Open(s, node)
      && var x := s.txns[node].value;
      && !x.updated
      && rows !! Locked(s)
      && |x.ids + rows| <= x.budget
      && forall id :: id in rows ==> id in s.table && Eligible(s.table[id], x.queue, x.at)
    case Write(node) => Open(s, node) && !s.txns[node].value.updated && s.txns[node].value.ids != {}
    case Commit(node) => Open(s, node) && s.txns[node].value.updated
    case Rollback(node) => Open(s, node)
    case Other(op) =>
      // A statement on a locked row waits for the lock.
      !op.Claim? && Issuable(s.table, op) && Hits(s.table, op) !! Locked(s)
  }

  function Room(c: Config, s: Cluster, queue: Id): int
    requires queue in c.limits
  {
    c.limits[queue] - Stats.Count(s.table, queue, Running)
  }

  function Step(c: Config, s: Cluster, e: Event): Cluster
    requires Enabled(c, s, e)
  {
    match e
    case Count(node, queue, size, at) =>
      var room := Room(c, s, queue);
      if room <= 0 then s
      else s.(txns := s.txns[node := Some(Txn(queue, at, Min(size, room), {}, false))])
    case Lock(node, rows) =>
      var x := s.txns[node].value;
      s.(txns := s.txns[node := Some(x.(ids := x.ids + rows))])
    case Write(node) => s.(txns := s.txns[node := Some(s.txns[node].value.(updated := true))])
    case Commit(node) =>
      var x := s.txns[node].value;
      Cluster(Apply(s.table, Claim(node, x.ids, x.at)), s.txns[node := None])
    case Rollback(node) => s.(txns := s.txns[node := None])
    case Other(op) => s.(table := Apply(s.table, op))
  }

  predicate Legal(c: Config, s: Cluster, es: seq<Event>)
    decreases es
  {
    es == [] || (Enabled(c, s, es[0]) && Legal(c, Step(c, s, es[0]), es[1..]))
  }

  function Exec(c: Config, s: Cluster, es: seq<Event>): Cluster
    requires Legal(c, s, es)
    decreases es
  {
    if es == [] then s else Exec(c, Step(c, s, es[0]), es[1..])
  }

  lemma {:induction false} RunsCompose(c: Config, s: Cluster, a: seq<Event>, b: seq<Event>)
    requires Legal(c, s, a) && Legal(c, Exec(c, s, a), b)
    ensures Legal(c, s, a + b) && Exec(c, s, a + b) == Exec(c, Exec(c, s, a), b)
    decreases a
  {
    if a == [] {
      assert a + b == b;
    } else {
      assert (a + b)[0] == a[0] && (a + b)[1..] == a[1..] + b;
      RunsCompose(c, Step(c, s, a[0]), a[1..], b);
    }
  }

  // ----- Locks ----------------------------------------------------------------

  /** Every held row is still eligible for its holder, and no row is held twice. */
  ghost predicate LocksHold(s: Cluster) {
    && (forall i :: 0 <= i < |s.txns| && s.txns[i].Some? ==> Holds(s.table, s.txns[i].value))
    && (forall i, k :: 0 <= i < k < |s.txns| && s.txns[i].Some? && s.txns[k].Some? ==>
                         s.txns[i].value.ids !! s.txns[k].value.ids)
  }

  ghost predicate Holds(t: Table, x: Txn) {
    && |x.ids| <= x.budget
    && forall id :: id in x.ids ==> id in t && Eligible(t[id], x.queue, x.at)
  }

  lemma HeldRowsAreLocked(s: Cluster, i: nat)
    requires i < |s.txns| && s.txns[i].Some?
    ensures s.txns[i].value.ids <= Locked(s)
  {
  }

  lemma StepKeepsLocks(c: Config, s: Cluster, e: Event)
    requires LocksHold(s) && Enabled(c, s, e)
    ensures LocksHold(Step(c, s, e))
  {
    var u := Step(c, s, e);
    forall i | 0 <= i < |u.txns| && u.txns[i].Some?
      ensures Holds(u.table, u.txns[i].value)
    {
      HoldsStill(c, s, e, i);
    }
    if e.Lock? {
      forall i | 0 <= i < |s.txns| && s.txns[i].Some?
        ensures e.rows !! s.txns[i].value.ids
      {
        HeldRowsAreLocked(s, i);
      }
    }
  }

  lemma HoldsStill(c: Config, s: Cluster, e: Event, i: nat)
    requires LocksHold(s) && Enabled(c, s, e) && i < |Step(c, s, e).txns| && Step(c, s, e).txns[i].Some?
    ensures Holds(Step(c, s, e).table, Step(c, s, e).txns[i].value)
  {
    if s.txns[i].Some? {
      HeldRowsAreLocked(s, i);
      assert Holds(s.table, s.txns[i].value);
      if e.Commit? {
        assert s.txns[i].value.ids !! s.txns[e.node].value.ids;
        HoldsThrough(s.table, Claim(e.node, s.txns[e.node].value.ids, s.txns[e.node].value.at), s.txns[i].value);
      } else if e.Other? {
        HoldsThrough(s.table, e.op, s.txns[i].value);
      }
    }
  }

  /** A statement that hits none of its rows leaves a transaction holding them. */
  lemma HoldsThrough(t: Table, op: Op, x: Txn)
    requires Holds(t, x) && Hits(t, op) !! x.ids
    ensures Holds(Apply(t, op), x)
  {
    forall id | id in x.ids
      ensures id in Apply(t, op) && Apply(t, op)[id] == t[id]
    {
      assert id !in Hits(t, op);
    }
  }

  /** A claim starts holding nothing, with a budget of its size up to the room it counts, if there is any. */
  lemma CountGrantsTheRoom(c: Config, s: Cluster, node: nat, queue: Id, size: nat, at: Time)
    requires Enabled(c, s, Count(node, queue, size, at))
    ensures var u, room := Step(c, s, Count(node, queue, size, at)), Room(c, s, queue);
            && u.table == s.table
            && (room <= 0 ==> u.txns == s.txns)
            && (room > 0 ==>
                  u.txns == s.txns[node := Some(Txn(queue, at, if size <= room then size else room, {}, false))])
  {
  }

  /** A commit makes exactly its rows running, for its node, since its NOW(). */
  lemma CommitWritesItsRows(c: Config, s: Cluster, node: nat)
    requires Enabled(c, s, Commit(node))
    ensures var x, u := s.txns[node].value, Step(c, s, Commit(node));
            u.table == map id | id in s.table ::
                         if id in x.ids
                         then s.table[id].(status := Running, claimedBy := Some(node), claimedAt := Some(x.at),
                                           startedAt := Some(x.at))
                         else s.table[id]
  {
  }

  /** A transaction locks what it selects, and keeps that through its update; counting locks nothing. */
  lemma SelectingLocks(c: Config, s: Cluster, node: nat, rows: set<Id>)
    requires LocksHold(s) && Enabled(c, s, Lock(node, rows))
    ensures var u := Step(c, s, Lock(node, rows));
            u.table == s.table && Locked(u) == Locked(s) + rows
  {
    var own := s.txns[node].value.ids;
    HeldRowsAreLocked(s, node);
    LockedAfter(s, node, own + rows, Step(c, s, Lock(node, rows)));
    PutBack(Locked(s), own, rows);
  }

  lemma PutBack(all: set<Id>, part: set<Id>, more: set<Id>)
    requires part <= all
    ensures all - part + (part + more) == all + more && all - part + part == all
  {
  }

  lemma UpdatingKeepsLocks(c: Config, s: Cluster, node: nat)
    requires LocksHold(s) && Enabled(c, s, Write(node))
    ensures var u := Step(c, s, Write(node));
            u.table == s.table && Locked(u) == Locked(s)
  {
    HeldRowsAreLocked(s, node);
    LockedAfter(s, node, s.txns[node].value.ids, Step(c, s, Write(node)));
    PutBack(Locked(s), s.txns[node].value.ids, {});
  }

  lemma CountingLocksNothing(c: Config, s: Cluster, e: Event)
    requires Enabled(c, s, e) && e.Count?
    ensures Locked(Step(c, s, e)) == Locked(s)
  {
    CountLocksNothing(s, e.node, Step(c, s, e));
  }

  /** Commit and rollback end the transaction: its rows are free again, and no others; a rollback writes nothing. */
  lemma EndingUnlocks(c: Config, s: Cluster, e: Event)
    requires LocksHold(s) && Enabled(c, s, e) && (e.Commit? || e.Rollback?)
    ensures var u := Step(c, s, e);
            && u.txns == s.txns[e.node := None]
            && Locked(u) == Locked(s) - s.txns[e.node].value.ids
            && (e.Rollback? ==> u.table == s.table)
  {
    LockedAfter(s, e.node, {}, Step(c, s, e));
  }

  lemma CountLocksNothing(s: Cluster, node: nat, u: Cluster)
    requires node < |s.txns| == |u.txns| && s.txns[node] == None
    requires u.txns[node].Some? ==> u.txns[node].value.ids == {}
    requires forall i :: 0 <= i < |s.txns| && i != node ==> u.txns[i] == s.txns[i]
    ensures Locked(u) == Locked(s)
  {
    forall id
      ensures id in Locked(u) <==> id in Locked(s)
    {
      if i :| 0 <= i < |s.txns| && s.txns[i].Some? && id in s.txns[i].value.ids {
        assert u.txns[i] == s.txns[i];
      }
    }
  }

  /** When one transaction's rows change, or are let go, the others' stay locked. */
  lemma LockedAfter(s: Cluster, node: nat, ids: set<Id>, u: Cluster)
    requires LocksHold(s) && Open(s, node) && |u.txns| == |s.txns|
    requires forall i :: 0 <= i < |s.txns| && i != node ==> u.txns[i] == s.txns[i]
    requires if u.txns[node].Some? then u.txns[node].value.ids == ids else ids == {}
    ensures Locked(u) == Locked(s) - s.txns[node].value.ids + ids
  {
    var own := s.txns[node].value.ids;
    forall id
      ensures id in Locked(u) <==> id in Locked(s) - own + ids
    {
      if i :| 0 <= i < |u.txns| && u.txns[i].Some? && id in u.txns[i].value.ids {
        if i != node {
          assert s.txns[i].value.ids !! own by {
            assert if i < node then s.txns[i].value.ids !! own else own !! s.txns[i].value.ids;
          }
        }
      }
      if id in Locked(s) && id !in own {
        var i :| 0 <= i < |s.txns| && s.txns[i].Some? && id in s.txns[i].value.ids;
        assert i != node && u.txns[i] == s.txns[i];
      }
      if id in ids {
        assert u.txns[node].Some?;
      }
    }
  }

  // ----- Serializability ------------------------------------------------------

  /** The atomic statements of a run, a claim at the place of its commit. */
  function Serial(c: Config, s: Cluster, es: seq<Event>): seq<Op>
    requires Legal(c, s, es)
    decreases es
  {
    if es == [] then []
    else SerialOf(s, es[0]) + Serial(c, Step(c, s, es[0]), es[1..])
  }

  function SerialOf(s: Cluster, e: Event): seq<Op> {
    if e.Other? then [e.op]
    else if e.Commit? && Open(s, e.node) then [Claim(e.node, s.txns[e.node].value.ids, s.txns[e.node].value.at)]
    else []
  }

  /**
   Any interleaving has on the table the effect of running its statements and its
   claims one after the other, each claim atomic at its commit, with every claimed job
   pending and due at that point.
   */
  lemma {:induction false} ClaimsSerialize(c: Config, s: Cluster, es: seq<Event>)
    requires LocksHold(s) && Legal(c, s, es)
    ensures LocksHold(Exec(c, s, es))
    ensures AllIssuable(s.table, Serial(c, s, es))
    ensures After(s.table, Serial(c, s, es)) == Exec(c, s, es).table
    decreases es
  {
    if es != [] {
      var u := Step(c, s, es[0]);
      StepKeepsLocks(c, s, es[0]);
      ClaimsSerialize(c, u, es[1..]);
      StepSerializes(c, s, es[0]);
      ExecAppend(s.table, SerialOf(s, es[0]), Serial(c, u, es[1..]));
    }
  }

  lemma StepSerializes(c: Config, s: Cluster, e: Event)
    requires LocksHold(s) && Enabled(c, s, e)
    ensures AllIssuable(s.table, SerialOf(s, e))
    ensures After(s.table, SerialOf(s, e)) == Step(c, s, e).table
  {
    if e.Commit? {
      assert Holds(s.table, s.txns[e.node].value);
    }
    if SerialOf(s, e) != [] {
      var op := SerialOf(s, e)[0];
      assert SerialOf(s, e) == [op] && [op][1..] == [];
      assert After(s.table, [op]) == After(Apply(s.table, op), []);
    }
  }

  /** Transactions that overlap never hold, and so never claim, the same job. */
  lemma OverlappingClaimsAreDisjoint(c: Config, s: Cluster, es: seq<Event>, i: nat, k: nat)
    requires LocksHold(s) && Legal(c, s, es)
    requires i != k && Open(Exec(c, s, es), i) && Open(Exec(c, s, es), k)
    ensures Exec(c, s, es).txns[i].value.ids !! Exec(c, s, es).txns[k].value.ids
  {
    ClaimsSerialize(c, s, es);
    var u := Exec(c, s, es);
    if i < k {
      assert u.txns[i].value.ids !! u.txns[k].value.ids;
    } else {
      assert u.txns[k].value.ids !! u.txns[i].value.ids;
    }
  }

  // ----- The concurrency limit --------------------------------------------------

  function Budget(queue: Id, x: Option<Txn>): nat {
    if x.Some? && x.value.queue == queue then x.value.budget else 0
  }

  /** What the claims in flight may still add to the queue's running jobs. */
  ghost function InFlight(s: Cluster, queue: Id): int {
    Sum(s.txns, BudgetOn(queue))
  }

  ghost function BudgetOn(queue: Id): Option<Txn> -> int {
    x => Budget(queue, x)
  }

  function Cap(c: Config, queue: Id): nat
    requires queue in c.limits
  {
    Min(c.batch, c.limits[queue])
  }

  ghost predicate BudgetsCapped(c: Config, s: Cluster) {
    forall i, queue :: 0 <= i < |s.txns| && queue in c.limits ==> Budget(queue, s.txns[i]) <= Cap(c, queue)
  }

  ghost predicate WithinBound(c: Config, s: Cluster, queue: Id)
    requires queue in c.limits && |s.txns| > 0
  {
    Load(s, queue) <= c.limits[queue] + (|s.txns| - 1) * Cap(c, queue)
  }

  ghost function Load(s: Cluster, queue: Id): int {
    Stats.Count(s.table, queue, Running) + InFlight(s, queue)
  }

  lemma StepKeepsBound(c: Config, s: Cluster, e: Event, queue: Id)
    requires LocksHold(s) && BudgetsCapped(c, s) && Enabled(c, s, e)
    requires queue in c.limits && |s.txns| > 0 && WithinBound(c, s, queue)
    ensures BudgetsCapped(c, Step(c, s, e)) && |Step(c, s, e).txns| == |s.txns|
    ensures WithinBound(c, Step(c, s, e), queue)
  {
    StepKeepsCaps(c, s, e);
    if e.Count? {
      CountKeepsBound(c, s, e, queue);
    } else {
      OnlyCountsAddLoad(c, s, e, queue);
    }
  }

  lemma StepKeepsCaps(c: Config, s: Cluster, e: Event)
    requires BudgetsCapped(c, s) && Enabled(c, s, e)
    ensures BudgetsCapped(c, Step(c, s, e)) && |Step(c, s, e).txns| == |s.txns|
  {
    var u := Step(c, s, e);
    forall i, queue | 0 <= i < |u.txns| && queue in c.limits
      ensures Budget(queue, u.txns[i]) <= Cap(c, queue)
    {
      assert Budget(queue, s.txns[i]) <= Cap(c, queue);
    }
  }

  /** The budget just granted fits the limit next to the rows counted; the others are capped. */
  lemma CountKeepsBound(c: Config, s: Cluster, e: Event, queue: Id)
    requires BudgetsCapped(c, s) && e.Count? && Enabled(c, s, e)
    requires queue in c.limits && WithinBound(c, s, queue)
    ensures WithinBound(c, Step(c, s, e), queue)
  {
    var u := Step(c, s, e);
    if u != s {
      SumUpdate(s.txns, e.node, u.txns[e.node], BudgetOn(queue));
      OthersInFlight(c, s, e.node, queue);
    }
  }

  lemma OnlyCountsAddLoad(c: Config, s: Cluster, e: Event, queue: Id)
    requires LocksHold(s) && Enabled(c, s, e) && !e.Count?
    ensures Load(Step(c, s, e), queue) <= Load(s, queue)
  {
    match e
    case Lock(node, rows) => SumUpdate(s.txns, node, Step(c, s, e).txns[node], BudgetOn(queue));
    case Write(node) => SumUpdate(s.txns, node, Step(c, s, e).txns[node], BudgetOn(queue));
    case Rollback(node) => SumUpdate(s.txns, node, None, BudgetOn(queue));
    case Commit(node) => CommitKeepsLoad(c, s, node, queue);
    case Other(op) => OnlyClaimsRun(s.table, op, queue);
  }

  /** A commit turns at most its budget into running jobs. */
  lemma CommitKeepsLoad(c: Config, s: Cluster, node: nat, queue: Id)
    requires LocksHold(s) && Enabled(c, s, Commit(node))
    ensures Load(Step(c, s, Commit(node)), queue) <= Load(s, queue)
  {
    var x := s.txns[node].value;
    SumUpdate(s.txns, node, None, BudgetOn(queue));
    assert Holds(s.table, x);
    ClaimMoves(s.table, node, x.ids, x.at, x.queue);
  }

  /** With node idle, the other nodes have at most |txns| - 1 capped budgets in flight. */
  lemma OthersInFlight(c: Config, s: Cluster, node: nat, queue: Id)
    requires BudgetsCapped(c, s) && queue in c.limits
    requires node < |s.txns| && s.txns[node] == None
    ensures InFlight(s, queue) <= (|s.txns| - 1) * Cap(c, queue)
  {
    var f := BudgetOn(queue);
    var others := s.txns[..node] + s.txns[node + 1..];
    SumWithout(s.txns, node, f);
    forall x | x in others
      ensures 0 <= f(x) <= Cap(c, queue)
    {
      var i :| 0 <= i < |s.txns| && s.txns[i] == x;
      assert Budget(queue, s.txns[i]) <= Cap(c, queue);
    }
    SumBounds(others, f, 0, Cap(c, queue));
  }

  /** Before any claim is in flight: no queue is over its limit. */
  ghost predicate Init(c: Config, s: Cluster) {
    && |s.txns| > 0
    && (forall i :: 0 <= i < |s.txns| ==> s.txns[i] == None)
    && forall queue :: queue in c.limits ==> Stats.Count(s.table, queue, Running) <= c.limits[queue]
  }

  /**
   For any number of nodes and any interleaving, a queue never runs more than its limit
   plus one capped claim for every node but one. With one node that is the limit itself.
   */
  lemma RunningJobsBounded(c: Config, s: Cluster, es: seq<Event>, queue: Id)
    requires Init(c, s) && Legal(c, s, es) && queue in c.limits
    ensures Stats.Count(Exec(c, s, es).table, queue, Running)
            <= c.limits[queue] + (|s.txns| - 1) * Min(c.batch, c.limits[queue])
  {
    SumBounds(s.txns, BudgetOn(queue), 0, 0);
    assert InFlight(s, queue) == 0;
    assert WithinBound(c, s, queue) by {
      assert (|s.txns| - 1) * Cap(c, queue) >= 0;
    }
    BoundHolds(c, s, es, queue);
    SumNonNegative(Exec(c, s, es).txns, BudgetOn(queue));
  }

  lemma {:induction false} BoundHolds(c: Config, s: Cluster, es: seq<Event>, queue: Id)
    requires LocksHold(s) && BudgetsCapped(c, s) && Legal(c, s, es)
    requires queue in c.limits && |s.txns| > 0 && WithinBound(c, s, queue)
    ensures |Exec(c, s, es).txns| == |s.txns|
    ensures WithinBound(c, Exec(c, s, es), queue)
    decreases es
  {
    if es != [] {
      StepKeepsLocks(c, s, es[0]);
      StepKeepsBound(c, s, es[0], queue);
      BoundHolds(c, Step(c, s, es[0]), es[1..], queue);
    }
  }

  // ----- The bound is reached ---------------------------------------------------

  function Due(t: Table, queue: Id, now: Time): set<Id> {
    set id | id in t && Eligible(t[id], queue, now)
  }

  /** The first `done` nodes are through; the others have counted and hold nothing yet. */
  ghost predicate Counted(s: Cluster, from: nat, to: nat, x: Txn) {
    && from <= to <= |s.txns|
    && forall i :: 0 <= i < |s.txns| ==> s.txns[i] == if from <= i < to then Some(x) else None
  }

  /** Every node counts before any commits: all of them see the same room. */
  lemma {:induction false} AllCount(c: Config, s: Cluster, queue: Id, now: Time, i: nat) returns (es: seq<Event>)
    requires queue in c.limits && i <= |s.txns| && Room(c, s, queue) == Cap(c, queue) > 0
    requires Counted(s, 0, i, Txn(queue, now, Cap(c, queue), {}, false))
    ensures Legal(c, s, es)
    ensures Exec(c, s, es).table == s.table && |Exec(c, s, es).txns| == |s.txns|
    ensures Counted(Exec(c, s, es), 0, |s.txns|, Txn(queue, now, Cap(c, queue), {}, false))
    decreases |s.txns| - i
  {
    es := [];
    if i < |s.txns| {
      var e := Count(i, queue, c.batch, now);
      var rest := AllCount(c, Step(c, s, e), queue, now, i + 1);
      es := [e] + rest;
      assert es[1..] == rest;
    }
  }

  /** Each of the remaining nodes commits a full budget. */
  lemma {:induction false} AllCommit(c: Config, s: Cluster, queue: Id, now: Time, m: nat, i: nat)
    returns (es: seq<Event>)
    requires m > 0 && Counted(s, i, |s.txns|, Txn(queue, now, m, {}, false))
    requires |Due(s.table, queue, now)| >= (|s.txns| - i) * m
    ensures Legal(c, s, es)
    ensures Stats.Count(Exec(c, s, es).table, queue, Running)
            == Stats.Count(s.table, queue, Running) + (|s.txns| - i) * m
    decreases |s.txns| - i
  {
    es := [];
    if i < |s.txns| {
      OneLess(|s.txns| - i, m);
      var first, u := OneCommits(c, s, queue, now, m, i);
      var rest := AllCommit(c, u, queue, now, m, i + 1);
      RunsCompose(c, s, first, rest);
      es := first + rest;
    }
  }

  lemma OneLess(k: nat, m: nat)
    requires k > 0
    ensures k * m == (k - 1) * m + m && (k - 1) * m >= 0
  {
  }

  lemma OneCommits(c: Config, s: Cluster, queue: Id, now: Time, m: nat, i: nat)
    returns (es: seq<Event>, u: Cluster)
    requires m > 0 && i < |s.txns| && s.txns[i] == Some(Txn(queue, now, m, {}, false))
    requires forall k :: 0 <= k < |s.txns| && s.txns[k].Some? ==> s.txns[k].value.ids == {}
    requires |Due(s.table, queue, now)| >= m
    ensures Legal(c, s, es) && Exec(c, s, es) == u
    ensures u.txns == s.txns[i := None]
    ensures |Due(u.table, queue, now)| == |Due(s.table, queue, now)| - m
    ensures Stats.Count(u.table, queue, Running) == Stats.Count(s.table, queue, Running) + m
  {
    var rows := SubsetOfSize(Due(s.table, queue, now), m);
    assert Locked(s) == {};
    var s1 := s.(txns := s.txns[i := Some(Txn(queue, now, m, rows, false))]);
    var s2 := s.(txns := s.txns[i := Some(Txn(queue, now, m, rows, true))]);
    u := Cluster(Apply(s.table, Claim(i, rows, now)), s.txns[i := None]);
    assert {} + rows == rows;
    assert Enabled(c, s, Lock(i, rows)) && Step(c, s, Lock(i, rows)) == s1;
    assert Enabled(c, s1, Write(i)) && Step(c, s1, Write(i)) == s2;
    assert Enabled(c, s2, Commit(i)) && Step(c, s2, Commit(i)) == u;
    es := [Lock(i, rows), Write(i), Commit(i)];
    ThreeSteps(c, s, Lock(i, rows), Write(i), Commit(i));
    ClaimUsesUp(s.table, i, rows, queue, now);
  }

  lemma ClaimUsesUp(t: Table, node: Id, rows: set<Id>, queue: Id, now: Time)
    requires rows <= Due(t, queue, now)
    ensures var u := Apply(t, Claim(node, rows, now));
            && |Due(u, queue, now)| == |Due(t, queue, now)| - |rows|
            && Stats.Count(u, queue, Running) == Stats.Count(t, queue, Running) + |rows|
  {
    ClaimMoves(t, node, rows, now, queue);
    RemovedSize(Due(t, queue, now), rows, Due(Apply(t, Claim(node, rows, now)), queue, now));
  }

  lemma ThreeSteps(c: Config, s: Cluster, e1: Event, e2: Event, e3: Event)
    requires Enabled(c, s, e1) && Enabled(c, Step(c, s, e1), e2)
    requires Enabled(c, Step(c, Step(c, s, e1), e2), e3)
    ensures Legal(c, s, [e1, e2, e3])
    ensures Exec(c, s, [e1, e2, e3]) == Step(c, Step(c, Step(c, s, e1), e2), e3)
  {
    var s1 := Step(c, s, e1);
    var s2 := Step(c, s1, e2);
    assert [e1, e2, e3][1..] == [e2, e3] && [e2, e3][1..] == [e3] && [e3][1..] == [];
    assert Legal(c, Step(c, s2, e3), []);
    assert Legal(c, s2, [e3]) && Exec(c, s2, [e3]) == Step(c, s2, e3);
    assert Legal(c, s1, [e2, e3]) && Exec(c, s1, [e2, e3]) == Exec(c, s2, [e3]);
  }

  predicate Idle(s: Cluster) {
    forall i :: 0 <= i < |s.txns| ==> s.txns[i] == None
  }

  /** While no other claim is in flight node 0 counts and commits m jobs. */
  lemma ClaimAlone(c: Config, s: Cluster, queue: Id, now: Time, m: nat) returns (es: seq<Event>, u: Cluster)
    requires Idle(s) && |s.txns| > 0 && queue in c.limits && 0 < m <= c.batch && m <= Room(c, s, queue)
    requires |Due(s.table, queue, now)| >= m
    ensures Legal(c, s, es) && Exec(c, s, es) == u && Idle(u) && |u.txns| == |s.txns|
    ensures |Due(u.table, queue, now)| == |Due(s.table, queue, now)| - m
    ensures Room(c, u, queue) == Room(c, s, queue) - m
  {
    var counts := Count(0, queue, m, now);
    var s1 := Step(c, s, counts);
    assert s1.txns == s.txns[0 := Some(Txn(queue, now, m, {}, false))];
    var rest;
    rest, u := OneCommits(c, s1, queue, now, m, 0);
    es := [counts] + rest;
    assert es[1..] == rest;
  }

  /** Claims one after the other use the room up to one capped claim. */
  lemma {:induction false} FillUp(c: Config, s: Cluster, queue: Id, now: Time) returns (es: seq<Event>, u: Cluster)
    requires Idle(s) && |s.txns| > 0 && queue in c.limits && Room(c, s, queue) >= Cap(c, queue) > 0
    requires |Due(s.table, queue, now)| >= Room(c, s, queue) - Cap(c, queue)
    ensures Legal(c, s, es) && Exec(c, s, es) == u && Idle(u) && |u.txns| == |s.txns|
    ensures Room(c, u, queue) == Cap(c, queue)
    ensures |Due(u.table, queue, now)| == |Due(s.table, queue, now)| - (Room(c, s, queue) - Cap(c, queue))
    decreases Room(c, s, queue)
  {
    var over := Room(c, s, queue) - Cap(c, queue);
    if over == 0 {
      es, u := [], s;
    } else {
      var first, v := ClaimAlone(c, s, queue, now, Min(c.batch, over));
      var rest;
      rest, u := FillUp(c, v, queue, now);
      RunsCompose(c, s, first, rest);
      es := first + rest;
    }
  }

  /**
   From any cluster with room for one capped claim or more in the queue and enough due
   jobs, some interleaving reaches the bound of RunningJobsBounded.
   */
  lemma BoundIsReached(c: Config, s: Cluster, queue: Id, now: Time) returns (es: seq<Event>)
    requires Init(c, s) && queue in c.limits && Room(c, s, queue) >= Cap(c, queue) > 0
    requires |Due(s.table, queue, now)| >= Room(c, s, queue) + (|s.txns| - 1) * Cap(c, queue)
    ensures Legal(c, s, es)
    ensures Stats.Count(Exec(c, s, es).table, queue, Running)
            == c.limits[queue] + (|s.txns| - 1) * Min(c.batch, c.limits[queue])
  {
    var m := Cap(c, queue);
    assert |s.txns| * m == (|s.txns| - 1) * m + m && (|s.txns| - 1) * m >= 0;
    var fill, v := FillUp(c, s, queue, now);
    var a := AllCount(c, v, queue, now, 0);
    var b := AllCommit(c, Exec(c, v, a), queue, now, m, 0);
    RunsCompose(c, v, a, b);
    RunsCompose(c, s, fill, a + b);
    es := fill + (a + b);
  }

  /** For every limit, batch size and number of nodes there is such a cluster. */
  lemma TightForEverySize(limit: nat, batch: nat, nodes: nat) returns (c: Config, s: Cluster, es: seq<Event>)
    requires limit > 0 && batch > 0 && nodes > 0
    ensures c == Config(map[0 := limit], batch) && |s.txns| == nodes && Init(c, s) && Legal(c, s, es)
    ensures Stats.Count(Exec(c, s, es).table, 0, Running) == limit + (nodes - 1) * Min(batch, limit)
  {
    var m := Min(batch, limit);
    var busy := limit - m;
    var all := busy + nodes * m;
    var idle := Job(0, None, None, Pending, 5, 0, 3, 0, Fixed, 60, 300, None, None, None, None);
    var claimed := idle.(status := Running, claimedBy := Some(0), claimedAt := Some(0), startedAt := Some(0));
    var table := map id | id in Range(0, all) :: if id < busy then claimed else idle;
    c := Config(map[0 := limit], batch);
    s := Cluster(table, seq(nodes, _ => None));
    RangeSize(0, busy);
    RangeSize(busy, all);
    assert Having(table, 0, Running) == Range(0, busy);
    assert Due(table, 0, 0) == Range(busy, all);
    es := BoundIsReached(c, s, 0, 0);
  }
}
