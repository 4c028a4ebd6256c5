/**
 How long a worker node can sit on a claimed job (backend/internal/worker/pool.go,
 dispatcher.go, executor.go). Executing a job takes a bounded time and a claim returns
 within a bounded time of its NOW(); whatever else a goroutine can do takes no time.
 The bound that follows is a visibility timeout under which no execution is overdue.
 */
module NodeTiming {
  import opened Domain
  import opened Ordering
  import opened Support
  import W = WorkerNode

  /** The configured batch size, and bounds for executing a job and for a claim to return. */
  datatype Limits = Limits(batch: nat, handler: nat, claim: nat)

  /**
   A node on the clock. For the job node.claimed[k]: its claim's NOW() is taken[k] and
   the claim returned at came[k]; node.received[k] was received at started[k]. The claim
   that is next, or under way, got its size at `sized`.
   */
  datatype TimedNode = TimedNode(
    node: W.Node, now: Time, sized: Time, taken: seq<Time>, came: seq<Time>, started: seq<Time>)

  /** `at` is the NOW() of a claim, which begins after the claim got its size; other actions have none. */
  datatype Event =
    | Pass(to: Time)
    | Do(action: W.Event, at: Time)

  /** No goroutine can move but to finish an execution or to deal with the database. */
  predicate Settled(n: W.Node) {
    && (forall i :: 0 <= i < |n.workers| ==>
          && !n.workers[i].Received? && !n.workers[i].Executed?
          && (n.workers[i] == W.Waiting ==> n.channel == []))
    && (n.dispatcher.Submitting? ==> |n.channel| == |n.workers|)
  }

  /** No execution has started longer than the handler's bound before the time. */
  predicate InBound(lim: Limits, s: TimedNode, time: Time) {
    forall i, k :: 0 <= i < |s.node.workers| && 0 <= k < |s.node.received| && k < |s.started| ==>
                     W.Holds(s.node.workers[i], s.node.received[k]) ==> time <= s.started[k] + lim.handler
  }

  predicate Enabled(lim: Limits, s: TimedNode, e: Event) {
    match e
    case Pass(to) => s.now <= to && Settled(s.node) && InBound(lim, s, to)
    case Do(action, at) =>
      && W.Enabled(lim.batch, s.node, action)
      && (action.Claim? ==> s.sized <= at <= s.now <= at + lim.claim)
  }

  function Same(n: nat, t: Time): seq<Time> {
    seq(n, _ => t)
  }

  function Step(lim: Limits, s: TimedNode, e: Event): TimedNode
    requires Enabled(lim, s, e)
  {
    match e
    case Pass(to) => s.(now := to)
    case Do(action, at) =>
      var more := if action.Claim? then |action.batch| else 0;
      TimedNode(W.Step(lim.batch, s.node, action), s.now, if action.SizeClaim? then s.now else s.sized,
                s.taken + Same(more, at), s.came + Same(more, s.now),
                s.started + Same(if action.Receive? then 1 else 0, s.now))
  }

  predicate Start(s: TimedNode) {
    W.Start(s.node) && s.taken == [] && s.came == [] && s.started == []
  }

  predicate Legal(lim: Limits, s: TimedNode, es: seq<Event>)
    decreases es
  {
    es == [] || (Enabled(lim, s, es[0]) && Legal(lim, Step(lim, s, es[0]), es[1..]))
  }

  function Exec(lim: Limits, s: TimedNode, es: seq<Event>): TimedNode
    requires Legal(lim, s, es)
    decreases es
  {
    if es == [] then s else Exec(lim, Step(lim, s, es[0]), es[1..])
  }

  // ----- The invariant ------------------------------------------------------------------

  predicate Ascending(s: seq<Time>, now: Time) {
    && (forall i, k :: 0 <= i <= k < |s| ==> s[i] <= s[k])
    && (forall i :: 0 <= i < |s| ==> s[i] <= now)
  }

  /** The time is no later than the job's arrival, or than the bound of the job received C jobs earlier. */
  predicate Prompt(lim: Limits, s: TimedNode, k: nat, time: Time)
    requires k < |s.came|
  {
    || time <= s.came[k]
    || (k >= |s.node.workers| && k - |s.node.workers| < |s.started|
        && time <= s.started[k - |s.node.workers|] + lim.handler)
  }

  ghost predicate Clocked(lim: Limits, s: TimedNode) {
    && |s.taken| == |s.came| == |s.node.claimed| && |s.started| == |s.node.received| <= |s.node.claimed|
    && Ascending(s.came, s.now) && Ascending(s.started, s.now)
    && (forall k :: 0 <= k < |s.came| ==> s.came[k] <= s.taken[k] + lim.claim)
  }

  /** By a claim's NOW() the jobs C before its own had come, and those 2C before had been received. */
  predicate FewAhead(c: nat, taken: seq<Time>, came: seq<Time>, started: seq<Time>)
    requires |taken| == |came|
  {
    forall k :: 0 <= k < |taken| ==> FewBefore(c, taken[k], came, started, k)
  }

  predicate FewBefore(c: nat, taken: Time, came: seq<Time>, started: seq<Time>, k: nat)
    requires k < |came|
  {
    && (k >= c ==> came[k - c] <= taken)
    && (k >= 2 * c ==> k - 2 * c < |started| && started[k - 2 * c] <= taken)
  }

  /** What the claim about to be made finds: all claimed jobs have come, all but C been received. */
  predicate Before(c: nat, sized: Time, came: seq<Time>, started: seq<Time>) {
    forall k :: 0 <= k < |came| ==>
                  && came[k] <= sized
                  && (k < |came| - c ==> k < |started| && started[k] <= sized)
  }

  ghost predicate Inv(lim: Limits, s: TimedNode) {
    && W.Inv(lim.batch, s.node)
    && Clocked(lim, s)
    && FewAhead(|s.node.workers|, s.taken, s.came, s.started)
    && (s.node.dispatcher.Claiming? ==> Before(|s.node.workers|, s.sized, s.came, s.started))
    && InBound(lim, s, s.now)
    && (forall k :: 0 <= k < |s.started| ==> Prompt(lim, s, k, s.started[k]))
    && (|s.started| < |s.came| ==> Prompt(lim, s, |s.started|, s.now))
  }

  lemma StepKeepsClock(lim: Limits, s: TimedNode, e: Event)
    requires Inv(lim, s) && Enabled(lim, s, e)
    ensures Clocked(lim, Step(lim, s, e))
  {
    if e.Do? {
      W.StepKeepsInv(lim.batch, s.node, e.action);
    }
  }

  lemma StepKeepsFewAhead(lim: Limits, s: TimedNode, e: Event)
    requires Inv(lim, s) && Enabled(lim, s, e)
    ensures var u := Step(lim, s, e);
            |u.taken| == |u.came| && FewAhead(|u.node.workers|, u.taken, u.came, u.started)
  {
    if e.Do? {
      W.StepGrows(lim.batch, s.node, e.action);
      if e.action.Claim? {
        assert s.started + Same(0, s.now) == s.started;
        ClaimLeavesFewAhead(|s.node.workers|, s.sized, s.taken, s.came, s.started, |e.action.batch|, e.at, s.now);
      } else {
        FewAheadGrows(|s.node.workers|, s.taken, s.came, s.started, Same(if e.action.Receive? then 1 else 0, s.now));
        assert s.taken + Same(0, e.at) == s.taken && s.came + Same(0, s.now) == s.came;
      }
    }
  }

  lemma FewAheadGrows(c: nat, taken: seq<Time>, came: seq<Time>, started: seq<Time>, more: seq<Time>)
    requires |taken| == |came| && FewAhead(c, taken, came, started)
    ensures FewAhead(c, taken, came, started + more)
  {
    forall k | 0 <= k < |taken|
      ensures FewBefore(c, taken[k], came, started + more, k)
    {
      assert FewBefore(c, taken[k], came, started, k);
    }
  }

  lemma ClaimLeavesFewAhead(c: nat, sized: Time, taken: seq<Time>, came: seq<Time>, started: seq<Time>,
                            more: nat, at: Time, now: Time)
    requires |taken| == |came| && FewAhead(c, taken, came, started) && Before(c, sized, came, started)
    requires sized <= at && more <= c
    ensures FewAhead(c, taken + Same(more, at), came + Same(more, now), started)
  {
    var taken', came' := taken + Same(more, at), came + Same(more, now);
    forall k | 0 <= k < |taken'|
      ensures FewBefore(c, taken'[k], came', started, k)
    {
      if k < |taken| {
        assert FewBefore(c, taken[k], came, started, k);
      } else {
        assert k >= c ==> came[k - c] <= sized;
        assert k >= 2 * c ==> came[k - 2 * c] <= sized;
      }
    }
  }

  lemma StepKeepsBefore(lim: Limits, s: TimedNode, e: Event)
    requires Inv(lim, s) && Enabled(lim, s, e)
    ensures var u := Step(lim, s, e);
            u.node.dispatcher.Claiming? ==> Before(|u.node.workers|, u.sized, u.came, u.started)
  {
    if e.Do? {
      W.StepGrows(lim.batch, s.node, e.action);
      if e.action.SizeClaim? {
        assert |s.node.claimed| == |s.node.received| + |s.node.channel|;
      } else if s.node.dispatcher.Claiming? && !e.action.Claim? {
        assert s.came + Same(0, s.now) == s.came;
      }
    }
  }

  /** While a claimed job waits in a settled node, some worker is at work on one received C jobs earlier. */
  lemma OldJobAtWork(lim: Limits, s: TimedNode) returns (k: nat)
    requires Inv(lim, s) && Settled(s.node) && |s.started| < |s.came|
    ensures k + |s.node.workers| <= |s.started| && k < |s.started|
    ensures exists i :: 0 <= i < |s.node.workers| && W.Holds(s.node.workers[i], s.node.received[k])
  {
    var n := s.node;
    AllAtWork(lim, s);
    SumBounds(n.workers, W.Occupied, 1, 1);
    k := FirstUndone(n.received, n.done, |n.done|);
    assert W.Times(n.done, n.received[k]) == 0;
    assert n.received[k] in multiset(n.received);
    HolderOf(n.workers, n.received[k]);
  }

  lemma AllAtWork(lim: Limits, s: TimedNode)
    requires Inv(lim, s) && Settled(s.node) && |s.started| < |s.came|
    ensures |s.node.workers| > 0 && forall i :: 0 <= i < |s.node.workers| ==> s.node.workers[i].Executing?
    ensures Distinct(s.node.received)
  {
    var n := s.node;
    assert n.claimed == n.received + n.channel + W.Unsubmitted(n.dispatcher);
    assert n.channel != [];
    assert Distinct(n.received) by {
      assert forall i :: 0 <= i < |n.received| ==> n.received[i] == n.claimed[i];
    }
  }

  lemma {:induction false} ElementsAtMost(s: seq<nat>)
    ensures |Elements(s)| <= |s|
  {
    if s == [] {
      assert Elements(s) == {};
    } else {
      ElementsAtMost(s[..|s| - 1]);
      assert Elements(s) == Elements(s[..|s| - 1]) + {s[|s| - 1]};
    }
  }

  lemma FirstUndone(received: seq<nat>, done: seq<nat>, n: nat) returns (k: nat)
    requires Distinct(received) && |done| == n < |received|
    ensures k <= n && received[k] !in done
  {
    if k' :| 0 <= k' <= n && received[k'] !in done {
      k := k';
    } else {
      var first := received[..n + 1];
      ElementsAtMost(done);
      DistinctSize(first);
      SubsetSize(Elements(first), Elements(done));
      assert false;
    }
  }

  lemma {:induction false} HolderOf(ws: seq<W.Worker>, job: nat)
    requires W.Held(ws, job) > 0
    ensures exists i :: 0 <= i < |ws| && W.Holds(ws[i], job)
  {
    if ws != [] {
      var n := |ws| - 1;
      if W.Holds(ws[n], job) {
      } else {
        HolderOf(ws[..n], job);
        var i :| 0 <= i < n && W.Holds(ws[..n][i], job);
        assert W.Holds(ws[i], job);
      }
    }
  }

  lemma PassKeepsInv(lim: Limits, s: TimedNode, to: Time)
    requires Inv(lim, s) && Enabled(lim, s, Pass(to))
    ensures Inv(lim, Step(lim, s, Pass(to)))
  {
    if |s.started| < |s.came| {
      var k := OldJobAtWork(lim, s);
      assert s.started[k] <= s.started[|s.started| - |s.node.workers|];
    }
  }

  lemma DoKeepsInv(lim: Limits, s: TimedNode, e: Event)
    requires Inv(lim, s) && e.Do? && Enabled(lim, s, e)
    ensures Inv(lim, Step(lim, s, e))
  {
    var u := Step(lim, s, e);
    W.StepKeepsInv(lim.batch, s.node, e.action);
    StepKeepsClock(lim, s, e);
    StepKeepsFewAhead(lim, s, e);
    StepKeepsBefore(lim, s, e);
    HoldersInBound(lim, s, e);
    StartsArePrompt(lim, s, e);
    if |u.started| < |u.came| {
      NextIsPrompt(lim, s, e);
    }
  }

  lemma StartsArePrompt(lim: Limits, s: TimedNode, e: Event)
    requires Inv(lim, s) && e.Do? && Enabled(lim, s, e) && Clocked(lim, Step(lim, s, e))
    ensures var u := Step(lim, s, e);
            forall k :: 0 <= k < |u.started| ==> Prompt(lim, u, k, u.started[k])
  {
    var u := Step(lim, s, e);
    W.StepGrows(lim.batch, s.node, e.action);
    forall k | 0 <= k < |u.started|
      ensures Prompt(lim, u, k, u.started[k])
    {
      assert Prompt(lim, s, k, u.started[k]);
    }
  }

  lemma HoldersInBound(lim: Limits, s: TimedNode, e: Event)
    requires Inv(lim, s) && e.Do? && Enabled(lim, s, e)
    requires W.Inv(lim.batch, Step(lim, s, e).node) && Clocked(lim, Step(lim, s, e))
    ensures InBound(lim, Step(lim, s, e), s.now)
  {
    var u := Step(lim, s, e);
    forall i, k | 0 <= i < |u.node.workers| && 0 <= k < |u.started|
                  && W.Holds(u.node.workers[i], u.node.received[k])
      ensures s.now <= u.started[k] + lim.handler
    {
      if k < |s.started| {
        W.HeldBefore(lim.batch, s.node, e.action, i, k);
      }
    }
  }

  lemma NextIsPrompt(lim: Limits, s: TimedNode, e: Event)
    requires Inv(lim, s) && e.Do? && Enabled(lim, s, e)
    requires Clocked(lim, Step(lim, s, e)) && |Step(lim, s, e).started| < |Step(lim, s, e).came|
    ensures Prompt(lim, Step(lim, s, e), |Step(lim, s, e).started|, s.now)
  {
    var u, r := Step(lim, s, e), |s.started|;
    if r < |s.came| {
      assert Prompt(lim, s, r, s.now);
      if e.action.Receive? && s.now > u.came[r + 1] {
        assert s.came[r] <= s.came[r + 1];
        var c := |s.node.workers|;
        assert u.started[r - c] <= u.started[r + 1 - c];
      }
    }
  }

  lemma {:induction false} RunsKeepInv(lim: Limits, s: TimedNode, es: seq<Event>)
    requires Inv(lim, s) && Legal(lim, s, es)
    ensures Inv(lim, Exec(lim, s, es))
    decreases es
  {
    if es != [] {
      if es[0].Pass? {
        PassKeepsInv(lim, s, es[0].to);
      } else {
        DoKeepsInv(lim, s, es[0]);
      }
      RunsKeepInv(lim, Step(lim, s, es[0]), es[1..]);
    }
  }

  // ----- Theorems -------------------------------------------------------------------------

  /** The longest from a claim's NOW() to the end of a job's execution. */
  function Bound(lim: Limits): nat {
    Max(3 * lim.handler, lim.claim + lim.handler)
  }

  /** A job is received on arrival, or within two executions of its claim's NOW(). */
  lemma ReceivedWithinTwo(lim: Limits, s: TimedNode, k: nat)
    requires Inv(lim, s) && k < |s.started|
    ensures s.started[k] <= Max(s.came[k], s.taken[k] + 2 * lim.handler)
  {
    PromptWithinTwo(lim, s, k, s.started[k]);
  }

  lemma PromptWithinTwo(lim: Limits, s: TimedNode, k: nat, time: Time)
    requires Inv(lim, s) && k <= |s.started| && k < |s.came| && Prompt(lim, s, k, time)
    ensures time <= Max(s.came[k], s.taken[k] + 2 * lim.handler)
  {
    var c := |s.node.workers|;
    if k >= c && k - c < |s.started| {
      assert Prompt(lim, s, k - c, s.started[k - c]);
      assert FewBefore(c, s.taken[k], s.came, s.started, k);
    }
  }

  lemma UnfinishedIsRecent(lim: Limits, s: TimedNode, k: nat)
    requires Inv(lim, s) && k < |s.node.claimed| && s.node.claimed[k] !in s.node.done
    ensures s.now <= s.taken[k] + Bound(lim)
  {
    if k < |s.started| {
      ReceivedWithinTwo(lim, s, k);
      var job := s.node.received[k];
      assert job == s.node.claimed[k] && job in multiset(s.node.received);
      HolderOf(s.node.workers, job);
    } else {
      WaitingIsRecent(lim, s, k);
    }
  }

  /** No job waits to be received longer than for its claim, or two executions. */
  lemma WaitingIsRecent(lim: Limits, s: TimedNode, k: nat)
    requires Inv(lim, s) && |s.started| <= k < |s.came|
    ensures s.now <= Max(s.came[k], s.taken[k] + 2 * lim.handler)
  {
    var r, c := |s.started|, |s.node.workers|;
    assert Prompt(lim, s, r, s.now) && s.came[r] <= s.came[k];
    if s.now > s.came[k] {
      assert Prompt(lim, s, r - c, s.started[r - c]);
      assert FewBefore(c, s.taken[k], s.came, s.started, k);
      assert s.came[r - c] <= s.came[k - c];
      if r >= 2 * c {
        assert s.started[r - 2 * c] <= s.started[k - 2 * c];
      }
    }
  }

  /**
   In every run, whatever the concurrency and the batch size: a job that is not finished
   was claimed no longer ago than three executions, or a claim and an execution, may take.
   */
  lemma FinishedWithinBound(lim: Limits, s: TimedNode, es: seq<Event>, k: nat)
    requires Start(s) && Legal(lim, s, es)
    requires k < |Exec(lim, s, es).node.claimed|
    requires Exec(lim, s, es).node.claimed[k] !in Exec(lim, s, es).node.done
    ensures var u := Exec(lim, s, es);
            k < |u.taken| && u.now <= u.taken[k] + Bound(lim)
  {
    StartIsInv(lim, s);
    RunsKeepInv(lim, s, es);
    UnfinishedIsRecent(lim, Exec(lim, s, es), k);
  }

  lemma StartIsInv(lim: Limits, s: TimedNode)
    requires Start(s)
    ensures Inv(lim, s)
  {
    W.StartIsInv(lim.batch, s.node);
  }

  // ----- The bound is reached --------------------------------------------------------------

  ghost predicate Reaches(lim: Limits, s: TimedNode, u: TimedNode) {
    exists es :: Legal(lim, s, es) && Exec(lim, s, es) == u
  }

  lemma {:induction false} OneMore(lim: Limits, s: TimedNode, es: seq<Event>, e: Event)
    requires Legal(lim, s, es) && Enabled(lim, Exec(lim, s, es), e)
    ensures Legal(lim, s, es + [e])
    ensures Exec(lim, s, es + [e]) == Step(lim, Exec(lim, s, es), e)
    decreases es
  {
    if es == [] {
      assert Legal(lim, Step(lim, s, e), []);
      assert ([] + [e])[1..] == [];
    } else {
      assert (es + [e])[1..] == es[1..] + [e];
      OneMore(lim, Step(lim, s, es[0]), es[1..], e);
    }
  }

  lemma Go(lim: Limits, s: TimedNode, u: TimedNode, e: Event) returns (v: TimedNode)
    requires Reaches(lim, s, u) && Enabled(lim, u, e)
    ensures v == Step(lim, u, e) && Reaches(lim, s, v)
  {
    v := Step(lim, u, e);
    var es :| Legal(lim, s, es) && Exec(lim, s, es) == u;
    OneMore(lim, s, es, e);
  }

  lemma Act(lim: Limits, s: TimedNode, u: TimedNode, a: W.Event) returns (v: TimedNode)
    requires Reaches(lim, s, u) && W.Enabled(lim.batch, u.node, a) && !a.Claim?
    ensures Reaches(lim, s, v) && v == Step(lim, u, Do(a, u.now))
  {
    v := Go(lim, s, u, Do(a, u.now));
  }

  /** A node with one worker that takes a job at a time, each claim returning at once. */
  function Single(now: Time, channel: seq<nat>, active: int, worker: W.Worker, d: W.Dispatcher,
                  claimed: seq<nat>, received: seq<nat>, done: seq<nat>, starts: seq<Time>): TimedNode {
    TimedNode(W.Node(channel, false, active, [worker], d, 0, W.Serving, claimed, received, done),
              now, 0, Same(|claimed|, 0), Same(|claimed|, 0), starts)
  }

  lemma TakesFirst(lim: Limits, s: TimedNode)
    requires lim.batch > 0 && s == Single(0, [], 0, W.Waiting, W.Asleep, [], [], [], [])
    ensures Reaches(lim, s, Single(0, [], 0, W.Received(0), W.Polling(2), [0], [0], [], [0]))
  {
    assert Legal(lim, s, []) && Exec(lim, s, []) == s;
    var u := Act(lim, s, s, W.TickFires(3));
    u := ClaimsOne(lim, s, u, 0, 2);
    u := Act(lim, s, u, W.Submit);
    u := Act(lim, s, u, W.Receive(0));
    assert u == Single(0, [], 0, W.Received(0), W.Polling(2), [0], [0], [], [0]);
  }

  lemma TakesSecond(lim: Limits, s: TimedNode)
    requires lim.batch > 0 && Reaches(lim, s, Single(0, [], 0, W.Received(0), W.Polling(2), [0], [0], [], [0]))
    ensures Reaches(lim, s, Single(0, [1], 0, W.Received(0), W.Polling(1), [0, 1], [0], [], [0]))
  {
    var u := Single(0, [], 0, W.Received(0), W.Polling(2), [0], [0], [], [0]);
    u := ClaimsOne(lim, s, u, 1, 1);
    u := Act(lim, s, u, W.Submit);
    assert u == Single(0, [1], 0, W.Received(0), W.Polling(1), [0, 1], [0], [], [0]);
  }

  /** Before the counter goes up: one job is received, one buffered, and a third is claimed. */
  lemma ClaimsThree(lim: Limits, s: TimedNode)
    requires lim.batch > 0 && Reaches(lim, s, Single(0, [], 0, W.Received(0), W.Polling(2), [0], [0], [], [0]))
    ensures Reaches(lim, s, Single(0, [1], 1, W.Executing(0), W.Submitting([2], 0), [0, 1, 2], [0], [], [0]))
  {
    TakesSecond(lim, s);
    var u := Single(0, [1], 0, W.Received(0), W.Polling(1), [0, 1], [0], [], [0]);
    u := ClaimsOne(lim, s, u, 2, 0);
    u := Act(lim, s, u, W.CountUp(0));
    assert u == Single(0, [1], 1, W.Executing(0), W.Submitting([2], 0), [0, 1, 2], [0], [], [0]);
  }

  lemma ClaimsOne(lim: Limits, s: TimedNode, u: TimedNode, job: nat, left: nat) returns (v: TimedNode)
    requires lim.batch > 0 && Reaches(lim, s, u) && |u.node.workers| == 1 && u.node.active == 0
    requires u.node.dispatcher == W.Polling(left + 1) && Distinct(u.node.claimed + [job])
    ensures Reaches(lim, s, v)
    ensures v == u.(node := u.node.(dispatcher := W.Submitting([job], left), claimed := u.node.claimed + [job]),
                    sized := u.now, taken := u.taken + Same(1, u.now), came := u.came + Same(1, u.now))
  {
    v := Act(lim, s, u, W.CheckPool);
    v := Act(lim, s, v, W.SizeClaim);
    v := Go(lim, s, v, Do(W.Claim([job]), u.now));
    assert v.started == u.started;
  }

  /** One execution later the next job is at work. */
  lemma NextJob(lim: Limits, s: TimedNode, u: TimedNode) returns (v: TimedNode)
    requires Reaches(lim, s, u) && |u.node.workers| == 1 && u.node.workers[0].Executing?
    requires |u.started| == |u.node.received| > 0 && u.started[|u.started| - 1] == u.now
    requires Settled(u.node) && u.node.channel != []
    requires InBound(lim, u, u.now + lim.handler)
    ensures Reaches(lim, s, v)
    ensures v == TimedNode(
                   u.node.(workers := [W.Executing(u.node.channel[0])], channel := u.node.channel[1..],
                           received := u.node.received + [u.node.channel[0]],
                           done := u.node.done + [u.node.workers[0].job]),
                   u.now + lim.handler, u.sized, u.taken, u.came, u.started + [u.now + lim.handler])
  {
    v := Go(lim, s, u, Pass(u.now + lim.handler));
    v := Act(lim, s, v, W.Finish(0));
    v := Act(lim, s, v, W.CountDown(0));
    v := Act(lim, s, v, W.Receive(0));
    v := Act(lim, s, v, W.CountUp(0));
    assert v.node.workers == [W.Executing(u.node.channel[0])];
  }

  lemma FinishesFirst(lim: Limits, s: TimedNode)
    requires Reaches(lim, s, Single(0, [1], 1, W.Executing(0), W.Submitting([2], 0), [0, 1, 2], [0], [], [0]))
    ensures var t := lim.handler;
            Reaches(lim, s, Single(t, [2], 1, W.Executing(1), W.Polling(0), [0, 1, 2], [0, 1], [0], [0, t]))
  {
    var t := lim.handler;
    var u := Single(0, [1], 1, W.Executing(0), W.Submitting([2], 0), [0, 1, 2], [0], [], [0]);
    u := NextJob(lim, s, u);
    u := Act(lim, s, u, W.Submit);
    assert u == Single(t, [2], 1, W.Executing(1), W.Polling(0), [0, 1, 2], [0, 1], [0], [0, t]);
  }

  lemma FinishesSecond(lim: Limits, s: TimedNode)
    requires var t := lim.handler;
             Reaches(lim, s, Single(t, [2], 1, W.Executing(1), W.Polling(0), [0, 1, 2], [0, 1], [0], [0, t]))
    ensures var t := lim.handler;
            Reaches(lim, s, Single(2 * t, [], 1, W.Executing(2), W.Polling(0), [0, 1, 2], [0, 1, 2], [0, 1],
                                   [0, t, 2 * t]))
  {
    var t := lim.handler;
    var u := Single(t, [2], 1, W.Executing(1), W.Polling(0), [0, 1, 2], [0, 1], [0], [0, t]);
    u := NextJob(lim, s, u);
    assert u == Single(2 * t, [], 1, W.Executing(2), W.Polling(0), [0, 1, 2], [0, 1, 2], [0, 1], [0, t, 2 * t]);
  }

  /** A job that is third in line at once is at work three whole executions later. */
  lemma ThirdJobTakesThree(lim: Limits) returns (s: TimedNode, u: TimedNode)
    requires lim.batch > 0
    ensures Start(s) && Reaches(lim, s, u)
    ensures |u.node.claimed| == |u.taken| == 3 && u.node.claimed[2] !in u.node.done
    ensures u.now == u.taken[2] + 3 * lim.handler
  {
    var t := lim.handler;
    s := Single(0, [], 0, W.Waiting, W.Asleep, [], [], [], []);
    TakesFirst(lim, s);
    ClaimsThree(lim, s);
    FinishesFirst(lim, s);
    FinishesSecond(lim, s);
    u := Single(2 * t, [], 1, W.Executing(2), W.Polling(0), [0, 1, 2], [0, 1, 2], [0, 1], [0, t, 2 * t]);
    u := Go(lim, s, u, Pass(3 * t));
  }

  /** A job whose claim takes its time is at work a claim and a whole execution later. */
  lemma SlowClaimTakesBoth(lim: Limits) returns (s: TimedNode, u: TimedNode)
    requires lim.batch > 0
    ensures Start(s) && Reaches(lim, s, u)
    ensures |u.node.claimed| == |u.taken| == 1 && u.node.claimed[0] !in u.node.done
    ensures u.now == u.taken[0] + lim.claim + lim.handler
  {
    s := Single(0, [], 0, W.Waiting, W.Asleep, [], [], [], []);
    SlowClaim(lim, s);
    u := Late(lim);
    u := Act(lim, s, u, W.Submit);
    u := Act(lim, s, u, W.Receive(0));
    u := Act(lim, s, u, W.CountUp(0));
    u := Go(lim, s, u, Pass(lim.claim + lim.handler));
  }

  /** The claim of job 0, asked for at once, has taken all its time. */
  function Late(lim: Limits): TimedNode {
    TimedNode(W.Node([], false, 0, [W.Waiting], W.Submitting([0], 0), 0, W.Serving, [0], [], []),
              lim.claim, 0, [0], [lim.claim], [])
  }

  lemma SlowClaim(lim: Limits, s: TimedNode)
    requires lim.batch > 0 && s == Single(0, [], 0, W.Waiting, W.Asleep, [], [], [], [])
    ensures Reaches(lim, s, Late(lim))
  {
    assert Legal(lim, s, []) && Exec(lim, s, []) == s;
    var u := Act(lim, s, s, W.TickFires(1));
    u := Act(lim, s, u, W.CheckPool);
    u := Act(lim, s, u, W.SizeClaim);
    u := Go(lim, s, u, Pass(lim.claim));
    u := Go(lim, s, u, Do(W.Claim([0]), 0));
    assert u == Late(lim);
  }

  /** No smaller bound will do: on a node with one worker some unfinished job is as old as that. */
  lemma BoundIsReached(lim: Limits) returns (s: TimedNode, es: seq<Event>, k: nat)
    requires lim.batch > 0
    ensures Start(s) && Legal(lim, s, es)
    ensures var u := Exec(lim, s, es);
            && k < |u.node.claimed| == |u.taken| && u.node.claimed[k] !in u.node.done
            && u.now == u.taken[k] + Bound(lim)
  {
    var u;
    if 3 * lim.handler >= lim.claim + lim.handler {
      s, u := ThirdJobTakesThree(lim);
      k := 2;
    } else {
      s, u := SlowClaimTakesBoth(lim);
      k := 0;
    }
    es :| Legal(lim, s, es) && Exec(lim, s, es) == u;
  }
}
