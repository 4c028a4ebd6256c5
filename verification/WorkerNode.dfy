/**
 One worker node under every interleaving of its goroutines: the dispatcher loop
 (backend/internal/worker/dispatcher.go), the bounded job channel and the worker
 goroutines with their lagging counter (pool.go), and the shutdown (service.go).

 Each event is one atomic action of one goroutine; a goroutine that must wait has no
 enabled event. Jobs are execution tokens: every claimed batch is new.
 */
module WorkerNode {
  import opened Domain
  import opened Ordering
  import opened Support

  type Token = nat

  /** A worker goroutine: between the receive and the counter update it already holds a job. */
  datatype Worker =
    | Waiting
    | Received(job: Token)
    | Executing(job: Token)
    | Executed
    | Exited

  /**
   The dispatcher goroutine: asleep between ticks; at the top of the queue loop with
   queues left; inside dispatchQueue before its own capacity check; about to claim at
   most `size` jobs; submitting a claimed batch; or returned.
   */
  datatype Dispatcher =
    | Asleep
    | Polling(queues: nat)
    | Entered(queues: nat)
    | Claiming(size: nat, queues: nat)
    | Submitting(batch: seq<Token>, queues: nat)
    | Stopped

  /** Service.Start: serving; context cancelled, joining the loops; channel closed; returned. */
  datatype Main = Serving | Joining | Draining | Returned

  /**
   `loops` counts the other background loops still running. `claimed`, `received` and
   `done` are the histories of claims, receives and finished executions.
   */
  datatype Node = Node(
    channel: seq<Token>,
    closed: bool,
    active: int,
    workers: seq<Worker>,
    dispatcher: Dispatcher,
    loops: nat,
    main: Main,
    claimed: seq<Token>,
    received: seq<Token>,
    done: seq<Token>)

  datatype Event =
    | TickFires(queues: nat)
    | CheckPool
    | SizeClaim
    | Claim(batch: seq<Token>)
    | Submit
    | StopDispatcher
    | Receive(worker: nat)
    | CountUp(worker: nat)
    | Finish(worker: nat)
    | CountDown(worker: nat)
    | ExitWorker(worker: nat)
    | Cancel
    | StopLoop
    | CloseChannel
    | Return

  function AvailableWorkers(n: Node): int {
    |n.workers| - n.active
  }

  predicate At(n: Node, i: nat, w: Worker) {
    i < |n.workers| && n.workers[i] == w
  }

  /** batchSize is the configured maximum of a claim. */
  predicate Enabled(batchSize: nat, n: Node, e: Event) {
    match e
    case TickFires(_) => n.dispatcher == Asleep
    case CheckPool => n.dispatcher.Polling?
    case SizeClaim => n.dispatcher.Entered?
    case Claim(batch) =>
      && n.dispatcher.Claiming? && |batch| <= n.dispatcher.size
      && Distinct(n.claimed + batch)
    case Submit =>
      // A send waits for room; on a closed channel it would panic.
      && n.dispatcher.Submitting? && n.dispatcher.batch != []
      && (n.closed || |n.channel| < |n.workers|)
    case StopDispatcher => n.dispatcher == Asleep && n.main != Serving
    case Receive(i) => At(n, i, Waiting) && n.channel != []
    case CountUp(i) => i < |n.workers| && n.workers[i].Received?
    case Finish(i) => i < |n.workers| && n.workers[i].Executing?
    case CountDown(i) => At(n, i, Executed)
    case ExitWorker(i) => At(n, i, Waiting) && n.channel == [] && n.closed
    case Cancel => n.main == Serving
    case StopLoop => n.loops > 0 && n.main != Serving
    case CloseChannel => n.main == Joining && n.dispatcher == Stopped && n.loops == 0
    case Return => n.main == Draining && forall i :: 0 <= i < |n.workers| ==> n.workers[i] == Exited
  }

  /** Back to the queue loop once the whole batch is in the channel. */
  function Submitted(batch: seq<Token>, queues: nat): Dispatcher {
    if batch == [] then Polling(queues) else Submitting(batch, queues)
  }

  function Step(batchSize: nat, n: Node, e: Event): Node
    requires Enabled(batchSize, n, e)
  {
    match e
    case TickFires(queues) => n.(dispatcher := Polling(queues))
    case CheckPool =>
      n.(dispatcher :=
           if n.dispatcher.queues == 0 || AvailableWorkers(n) <= 0 then Asleep
           else Entered(n.dispatcher.queues - 1))
    case SizeClaim =>
      n.(dispatcher :=
           if AvailableWorkers(n) <= 0 then Polling(n.dispatcher.queues)
           else Claiming(Min(batchSize, AvailableWorkers(n)), n.dispatcher.queues))
    case Claim(batch) =>
      n.(dispatcher := Submitted(batch, n.dispatcher.queues), claimed := n.claimed + batch)
    case Submit =>
      n.(channel := n.channel + [n.dispatcher.batch[0]],
         dispatcher := Submitted(n.dispatcher.batch[1..], n.dispatcher.queues))
    case StopDispatcher => n.(dispatcher := Stopped)
    case Receive(i) =>
      n.(workers := n.workers[i := Received(n.channel[0])],
         channel := n.channel[1..], received := n.received + [n.channel[0]])
    case CountUp(i) => n.(workers := n.workers[i := Executing(n.workers[i].job)], active := n.active + 1)
    case Finish(i) => n.(workers := n.workers[i := Executed], done := n.done + [n.workers[i].job])
    case CountDown(i) => n.(workers := n.workers[i := Waiting], active := n.active - 1)
    case ExitWorker(i) => n.(workers := n.workers[i := Exited])
    case Cancel => n.(main := Joining)
    case StopLoop => n.(loops := n.loops - 1)
    case CloseChannel => n.(main := Draining, closed := true)
    case Return => n.(main := Returned)
  }

  predicate Start(n: Node) {
    && n.channel == [] && !n.closed && n.active == 0
    && (forall i :: 0 <= i < |n.workers| ==> n.workers[i] == Waiting)
    && n.dispatcher == Asleep && n.main == Serving
    && n.claimed == [] && n.received == [] && n.done == []
  }

  predicate Legal(batchSize: nat, n: Node, es: seq<Event>)
    decreases es
  {
    es == [] || (Enabled(batchSize, n, es[0]) && Legal(batchSize, Step(batchSize, n, es[0]), es[1..]))
  }

  function Exec(batchSize: nat, n: Node, es: seq<Event>): Node
    requires Legal(batchSize, n, es)
    decreases es
  {
    if es == [] then n else Exec(batchSize, Step(batchSize, n, es[0]), es[1..])
  }

  // ----- The invariant --------------------------------------------------------------

  /** Claimed jobs the dispatcher has yet to submit. */
  function Unsubmitted(d: Dispatcher): seq<Token> {
    if d.Submitting? then d.batch else []
  }

  function Busy(w: Worker): int {
    if w.Executing? || w.Executed? then 1 else 0
  }

  predicate Holds(w: Worker, job: Token) {
    (w.Received? || w.Executing?) && w.job == job
  }

  /** How many workers hold the job. */
  ghost function Held(ws: seq<Worker>, job: Token): int {
    Sum(ws, HoldsJob(job))
  }

  ghost function HoldsJob(job: Token): Worker -> int {
    w => if Holds(w, job) then 1 else 0
  }

  function Occupied(w: Worker): int {
    if w.Received? || w.Executing? then 1 else 0
  }

  ghost function BusyCount(ws: seq<Worker>): int {
    Sum(ws, Busy)
  }

  ghost predicate Fifo(n: Node) {
    && |n.channel| <= |n.workers|
    && n.claimed == n.received + n.channel + Unsubmitted(n.dispatcher)
    && Distinct(n.claimed)
  }

  function Times(s: seq<Token>, job: Token): nat {
    multiset(s)[job]
  }

  ghost predicate Conserved(n: Node) {
    && |n.received| == |n.done| + Sum(n.workers, Occupied)
    && forall job :: Times(n.received, job) == Held(n.workers, job) + Times(n.done, job)
  }

  ghost predicate Counted(n: Node) {
    n.active == BusyCount(n.workers)
  }

  ghost predicate DispatcherOk(batchSize: nat, n: Node) {
    && (n.dispatcher.Claiming? ==> n.dispatcher.size <= Min(batchSize, |n.workers|))
    && (n.dispatcher.Submitting? ==> 0 < |n.dispatcher.batch| <= Min(batchSize, |n.workers|))
  }

  ghost predicate ShutdownOk(n: Node) {
    && (n.main == Serving ==> n.dispatcher != Stopped)
    && (n.closed <==> n.main == Draining || n.main == Returned)
    && (n.closed ==> n.dispatcher == Stopped && n.loops == 0)
    && (forall i :: 0 <= i < |n.workers| && n.workers[i] == Exited ==> n.closed && n.channel == [])
    && (n.main == Returned ==> forall i :: 0 <= i < |n.workers| ==> n.workers[i] == Exited)
  }

  ghost predicate Inv(batchSize: nat, n: Node) {
    && Fifo(n) && Conserved(n) && Counted(n)
    && DispatcherOk(batchSize, n) && ShutdownOk(n)
  }

  lemma StepKeepsInv(batchSize: nat, n: Node, e: Event)
    requires Inv(batchSize, n) && Enabled(batchSize, n, e)
    ensures Inv(batchSize, Step(batchSize, n, e))
  {
    ActiveInRange(batchSize, n);
    StepKeepsFifo(batchSize, n, e);
    StepKeepsCount(batchSize, n, e);
    StepKeepsJobs(batchSize, n, e);
    StepKeepsDispatcher(batchSize, n, e);
    StepKeepsShutdown(batchSize, n, e);
  }

  lemma StepKeepsDispatcher(batchSize: nat, n: Node, e: Event)
    requires DispatcherOk(batchSize, n) && n.active >= 0 && Enabled(batchSize, n, e)
    ensures DispatcherOk(batchSize, Step(batchSize, n, e))
  {
  }

  lemma StepKeepsShutdown(batchSize: nat, n: Node, e: Event)
    requires ShutdownOk(n) && Enabled(batchSize, n, e)
    ensures ShutdownOk(Step(batchSize, n, e))
  {
  }

  lemma StepKeepsFifo(batchSize: nat, n: Node, e: Event)
    requires Fifo(n) && ShutdownOk(n) && Enabled(batchSize, n, e)
    ensures Fifo(Step(batchSize, n, e))
  {
    match e
    case Claim(batch) =>
      assert n.claimed + batch == n.received + n.channel + batch;
    case Submit =>
      var b := n.dispatcher.batch;
      assert b == [b[0]] + b[1..];
      assert n.received + (n.channel + [b[0]]) + b[1..] == n.received + n.channel + b;
    case Receive(i) =>
      var c := n.channel;
      assert c == [c[0]] + c[1..];
      assert (n.received + [c[0]]) + c[1..] == n.received + c;
    case _ =>
  }

  lemma StepKeepsCount(batchSize: nat, n: Node, e: Event)
    requires Counted(n) && Enabled(batchSize, n, e)
    ensures Counted(Step(batchSize, n, e))
  {
    match e
    case Receive(i) => SumUpdate(n.workers, i, Received(n.channel[0]), Busy);
    case CountUp(i) => SumUpdate(n.workers, i, Executing(n.workers[i].job), Busy);
    case Finish(i) => SumUpdate(n.workers, i, Executed, Busy);
    case CountDown(i) => SumUpdate(n.workers, i, Waiting, Busy);
    case ExitWorker(i) => SumUpdate(n.workers, i, Exited, Busy);
    case _ =>
  }

  /** A job moves from the channel to a worker, and from a worker to the finished ones. */
  lemma StepKeepsJobs(batchSize: nat, n: Node, e: Event)
    requires Conserved(n) && Enabled(batchSize, n, e)
    ensures Conserved(Step(batchSize, n, e))
  {
    match e
    case Receive(i) => ReceiveKeepsJobs(batchSize, n, i);
    case CountUp(i) => WorkerMoves(n, i, Executing(n.workers[i].job));
    case Finish(i) => FinishKeepsJobs(batchSize, n, i);
    case CountDown(i) => WorkerMoves(n, i, Waiting);
    case ExitWorker(i) => WorkerMoves(n, i, Exited);
    case _ =>
  }

  lemma ReceiveKeepsJobs(batchSize: nat, n: Node, i: nat)
    requires Conserved(n) && Enabled(batchSize, n, Receive(i))
    ensures Conserved(Step(batchSize, n, Receive(i)))
  {
    WorkerMoves(n, i, Received(n.channel[0]));
    TimesAppend(n.received, n.channel[0]);
  }

  lemma FinishKeepsJobs(batchSize: nat, n: Node, i: nat)
    requires Conserved(n) && Enabled(batchSize, n, Finish(i))
    ensures Conserved(Step(batchSize, n, Finish(i)))
  {
    WorkerMoves(n, i, Executed);
    TimesAppend(n.done, n.workers[i].job);
  }

  lemma WorkerMoves(n: Node, i: nat, w: Worker)
    requires i < |n.workers|
    ensures Sum(n.workers[i := w], Occupied) == Sum(n.workers, Occupied) - Occupied(n.workers[i]) + Occupied(w)
    ensures forall job :: Held(n.workers[i := w], job)
                          == Held(n.workers, job) - HoldsJob(job)(n.workers[i]) + HoldsJob(job)(w)
  {
    SumUpdate(n.workers, i, w, Occupied);
    forall job
      ensures Held(n.workers[i := w], job)
              == Held(n.workers, job) - HoldsJob(job)(n.workers[i]) + HoldsJob(job)(w)
    {
      SumUpdate(n.workers, i, w, HoldsJob(job));
    }
  }

  lemma TimesAppend(s: seq<Token>, last: Token)
    ensures forall job :: Times(s + [last], job) == Times(s, job) + if job == last then 1 else 0
  {
  }

  /** 0 <= active <= C, so AvailableWorkers never leaves [0, C]. */
  lemma ActiveInRange(batchSize: nat, n: Node)
    requires Inv(batchSize, n)
    ensures 0 <= n.active <= |n.workers|
    ensures 0 <= AvailableWorkers(n) <= |n.workers|
  {
    SumBounds(n.workers, Busy, 0, 1);
  }

  lemma {:induction false} RunsKeepInv(batchSize: nat, n: Node, es: seq<Event>)
    requires Inv(batchSize, n) && Legal(batchSize, n, es)
    ensures Inv(batchSize, Exec(batchSize, n, es)) && |Exec(batchSize, n, es).workers| == |n.workers|
    ensures n.claimed <= Exec(batchSize, n, es).claimed
    ensures n.received <= Exec(batchSize, n, es).received
    decreases es
  {
    if es != [] {
      StepKeepsInv(batchSize, n, es[0]);
      StepGrows(batchSize, n, es[0]);
      RunsKeepInv(batchSize, Step(batchSize, n, es[0]), es[1..]);
    }
  }

  lemma StepGrows(batchSize: nat, n: Node, e: Event)
    requires Enabled(batchSize, n, e)
    ensures n.claimed <= Step(batchSize, n, e).claimed
    ensures n.received <= Step(batchSize, n, e).received
    ensures |Step(batchSize, n, e).workers| == |n.workers|
  {
  }

  lemma {:induction false} NobodyHolds(ws: seq<Worker>, job: Token)
    requires forall i :: 0 <= i < |ws| ==> ws[i] == Waiting || ws[i] == Exited
    ensures Held(ws, job) == 0 && Sum(ws, Occupied) == 0 && BusyCount(ws) == 0
  {
    if ws != [] {
      NobodyHolds(ws[..|ws| - 1], job);
    }
  }

  lemma StartIsInv(batchSize: nat, n: Node)
    requires Start(n)
    ensures Inv(batchSize, n)
  {
    forall job
      ensures Held(n.workers, job) == 0 && Sum(n.workers, Occupied) == 0 && BusyCount(n.workers) == 0
    {
      NobodyHolds(n.workers, job);
    }
    NobodyHolds(n.workers, 0);
  }

  lemma {:induction false} DistinctTimes(s: seq<Token>, job: Token)
    requires Distinct(s)
    ensures Times(s, job) <= 1
  {
    if s != [] {
      var n := |s| - 1;
      assert s == s[..n] + [s[n]];
      DistinctTimes(s[..n], job);
    }
  }

  /** A job that is about to be finished was received and has not been finished before. */
  lemma FinishesOnce(batchSize: nat, n: Node, i: nat)
    requires Inv(batchSize, n) && Enabled(batchSize, n, Finish(i))
    ensures n.workers[i].job in n.received && n.workers[i].job !in n.done
  {
    var job, u := n.workers[i].job, Step(batchSize, n, Finish(i));
    StepKeepsJobs(batchSize, n, Finish(i));
    SumNonNegative(u.workers, HoldsJob(job));
    TimesAppend(n.done, job);
    forall a, b | 0 <= a < b < |n.received|
      ensures n.received[a] != n.received[b]
    {
      assert n.received[a] == n.claimed[a] && n.received[b] == n.claimed[b];
    }
    DistinctTimes(n.received, job);
    assert Times(n.received, job) == Held(u.workers, job) + Times(n.done, job) + 1;
  }

  /** Only the job just received has a new holder. */
  lemma HeldBefore(batchSize: nat, n: Node, e: Event, i: nat, k: nat)
    requires Fifo(n) && Enabled(batchSize, n, e) && i < |n.workers| && k < |n.received|
    requires Holds(Step(batchSize, n, e).workers[i], n.received[k])
    ensures Holds(n.workers[i], n.received[k])
  {
    if e.Receive? {
      assert n.claimed[k] == n.received[k] && n.claimed[|n.received|] == n.channel[0];
    }
  }

  // ----- Theorems ---------------------------------------------------------------------

  /**
   In every reachable state: the claimed jobs are, in claim order, the received ones,
   the buffered ones and the ones still to submit; the received ones are held or done,
   each once; at most 2C + min(B, C) are owned and unfinished; and no send is ever
   tried on the closed channel.
   */
  lemma JobsAreConserved(batchSize: nat, n: Node, es: seq<Event>)
    requires Start(n) && Legal(batchSize, n, es)
    ensures var u, c := Exec(batchSize, n, es), |n.workers|;
            && u.claimed == u.received + u.channel + Unsubmitted(u.dispatcher)
            && (forall job :: Times(u.received, job) == Held(u.workers, job) + Times(u.done, job))
            && Distinct(u.claimed)
            && 0 <= AvailableWorkers(u) <= c
            && |u.claimed| - |u.done| <= 2 * c + Min(batchSize, c)
            && (Enabled(batchSize, u, Submit) ==> !u.closed && |u.channel| < c)
  {
    StartIsInv(batchSize, n);
    RunsKeepInv(batchSize, n, es);
    OwnedAtMost(batchSize, Exec(batchSize, n, es));
  }

  lemma OwnedAtMost(batchSize: nat, u: Node)
    requires Inv(batchSize, u)
    ensures 0 <= AvailableWorkers(u) <= |u.workers|
    ensures |u.claimed| - |u.done| <= 2 * |u.workers| + Min(batchSize, |u.workers|)
    ensures |u.claimed| - |u.received| <= |u.workers| + Min(batchSize, |u.workers|)
    ensures forall k :: 0 <= k < |u.received| ==> u.received[k] == u.claimed[k]
    ensures Enabled(batchSize, u, Submit) ==> !u.closed && |u.channel| < |u.workers|
  {
    ActiveInRange(batchSize, u);
    SumBounds(u.workers, Occupied, 0, 1);
  }

  /**
   First in, first out, with bounded bypass: a claimed job that is not yet received has
   at most C + min(B, C) - 1 claimed jobs ahead of it, and in every continuation it is
   received right after exactly those.
   */
  lemma BypassIsBounded(batchSize: nat, n: Node, es: seq<Event>, k: nat, more: seq<Event>)
    requires Start(n) && Legal(batchSize, n, es) && Legal(batchSize, Exec(batchSize, n, es), more)
    requires |Exec(batchSize, n, es).received| <= k < |Exec(batchSize, n, es).claimed|
    ensures var u, c := Exec(batchSize, n, es), |n.workers|;
            var v := Exec(batchSize, u, more);
            && k - |u.received| <= c + Min(batchSize, c) - 1
            && (k < |v.received| ==> v.received[k] == u.claimed[k])
  {
    StartIsInv(batchSize, n);
    RunsKeepInv(batchSize, n, es);
    var u := Exec(batchSize, n, es);
    RunsKeepInv(batchSize, u, more);
    OwnedAtMost(batchSize, u);
    OwnedAtMost(batchSize, Exec(batchSize, u, more));
  }

  /** When Start returns, every job the node claimed has been executed exactly once by it. */
  lemma ShutdownExecutesEverything(batchSize: nat, n: Node, es: seq<Event>)
    requires Start(n) && Legal(batchSize, n, es) && Exec(batchSize, n, es).main == Returned
    ensures var u := Exec(batchSize, n, es);
            && multiset(u.done) == multiset(u.claimed)
            && Distinct(u.claimed)
            && (|n.workers| > 0 ==> u.received == u.claimed)
  {
    StartIsInv(batchSize, n);
    RunsKeepInv(batchSize, n, es);
    var u := Exec(batchSize, n, es);
    assert u.channel == [] by {
      if |u.workers| > 0 {
        assert u.workers[0] == Exited;
      }
    }
    assert u.claimed == u.received;
    forall job
      ensures multiset(u.done)[job] == multiset(u.claimed)[job]
    {
      NobodyHolds(u.workers, job);
      assert Times(u.received, job) == Times(u.done, job);
    }
  }

  // ----- No queue is passed over ----------------------------------------------------------

  /** The dispatcher goes to sleep only at the head of its loop, with no queue left or no idle worker. */
  lemma SleepsOnlyAtTheEnd(batchSize: nat, n: Node, e: Event)
    requires Enabled(batchSize, n, e)
    requires Step(batchSize, n, e).dispatcher == Asleep && n.dispatcher != Asleep
    ensures e == CheckPool && n.dispatcher.Polling?
    ensures n.dispatcher.queues == 0 || AvailableWorkers(n) <= 0
  {
  }

  /** The queues of the current tick for which no claim has been sized yet. */
  function QueuesLeft(d: Dispatcher): nat {
    match d
    case Asleep => 0
    case Polling(queues) => queues
    case Entered(queues) => queues + 1
    case Claiming(_, queues) => queues
    case Submitting(_, queues) => queues
    case Stopped => 0
  }

  /** Some worker is idle, as the counter has it, in every state of the run. */
  predicate IdleThroughout(batchSize: nat, n: Node, es: seq<Event>)
    requires Legal(batchSize, n, es)
    decreases es
  {
    AvailableWorkers(n) > 0 && (es == [] || IdleThroughout(batchSize, Step(batchSize, n, es[0]), es[1..]))
  }

  function SizesIn(es: seq<Event>): nat {
    if es == [] then 0 else (if es[0].SizeClaim? then 1 else 0) + SizesIn(es[1..])
  }

  lemma {:induction false} QueuesAreCountedDown(batchSize: nat, n: Node, es: seq<Event>)
    requires Legal(batchSize, n, es) && IdleThroughout(batchSize, n, es)
    requires forall e :: e in es ==> !e.TickFires?
    ensures SizesIn(es) == QueuesLeft(n.dispatcher) - QueuesLeft(Exec(batchSize, n, es).dispatcher)
    decreases es
  {
    if es != [] {
      QueuesAreCountedDown(batchSize, Step(batchSize, n, es[0]), es[1..]);
    }
  }

  /**
   A tick over q queues with a worker idle throughout sizes a claim for each of them
   before the dispatcher sleeps again, whatever the claims return.
   */
  lemma EveryQueueIsPolled(batchSize: nat, n: Node, queues: nat, es: seq<Event>)
    requires Enabled(batchSize, n, TickFires(queues))
    requires Legal(batchSize, Step(batchSize, n, TickFires(queues)), es)
    requires IdleThroughout(batchSize, Step(batchSize, n, TickFires(queues)), es)
    requires forall e :: e in es ==> !e.TickFires?
    requires Exec(batchSize, Step(batchSize, n, TickFires(queues)), es).dispatcher == Asleep
    ensures SizesIn(es) == queues
  {
    QueuesAreCountedDown(batchSize, Step(batchSize, n, TickFires(queues)), es);
  }

  // ----- Shutdown ends ------------------------------------------------------------------

  function Load(batchSize: nat, n: Node): nat {
    5 * Min(batchSize, |n.workers|) + 4
  }

  function DispatcherWork(load: nat, d: Dispatcher): int {
    match d
    case Stopped => 0
    case Asleep => 1
    case Polling(queues) => 2 + queues * load
    case Entered(queues) => 1 + load + queues * load
    case Claiming(_, queues) => load + queues * load
    case Submitting(batch, queues) => 3 + 5 * |batch| + queues * load
  }

  function WorkerWork(w: Worker): int {
    match w
    case Exited => 0
    case Waiting => 1
    case Executed => 2
    case Executing(_) => 3
    case Received(_) => 4
  }

  function MainWork(m: Main): int {
    match m
    case Serving => 3
    case Joining => 2
    case Draining => 1
    case Returned => 0
  }

  /** A bound on the steps left until Start returns, if the dispatcher does not tick again. */
  ghost function Work(batchSize: nat, n: Node): int {
    DispatcherWork(Load(batchSize, n), n.dispatcher) + 4 * |n.channel| + Sum(n.workers, WorkerWork)
    + n.loops + MainWork(n.main)
  }

  lemma WorkNonNegative(batchSize: nat, n: Node)
    ensures Work(batchSize, n) >= 0
  {
    SumNonNegative(n.workers, WorkerWork);
    var load := Load(batchSize, n);
    match n.dispatcher {
      case Polling(queues) => assert queues * load >= 0;
      case Entered(queues) => assert queues * load >= 0;
      case Claiming(_, queues) => assert queues * load >= 0;
      case Submitting(_, queues) => assert queues * load >= 0;
      case _ =>
    }
  }

  lemma EveryStepIsWork(batchSize: nat, n: Node, e: Event)
    requires Inv(batchSize, n) && Enabled(batchSize, n, e) && !e.TickFires?
    ensures Work(batchSize, Step(batchSize, n, e)) < Work(batchSize, n)
  {
    if e.Receive? || e.CountUp? || e.Finish? || e.CountDown? || e.ExitWorker? {
      WorkerStepIsWork(batchSize, n, e);
    } else if e.CheckPool? {
      OneQueueLess(Load(batchSize, n), n.dispatcher.queues);
    }
  }

  lemma WorkerStepIsWork(batchSize: nat, n: Node, e: Event)
    requires Enabled(batchSize, n, e)
    requires e.Receive? || e.CountUp? || e.Finish? || e.CountDown? || e.ExitWorker?
    ensures Work(batchSize, Step(batchSize, n, e)) < Work(batchSize, n)
  {
    var u := Step(batchSize, n, e);
    assert u.workers == n.workers[e.worker := u.workers[e.worker]];
    SumUpdate(n.workers, e.worker, u.workers[e.worker], WorkerWork);
  }

  lemma OneQueueLess(load: nat, queues: nat)
    ensures queues * load >= 0
    ensures queues > 0 ==> queues * load == (queues - 1) * load + load
  {
  }

  /** Once cancelled, a run without further ticks has at most Work steps. */
  lemma {:induction false} ShutdownIsBounded(batchSize: nat, n: Node, es: seq<Event>)
    requires Inv(batchSize, n) && Legal(batchSize, n, es)
    requires forall i :: 0 <= i < |es| ==> !es[i].TickFires?
    ensures |es| <= Work(batchSize, n)
    decreases es
  {
    WorkNonNegative(batchSize, n);
    if es != [] {
      EveryStepIsWork(batchSize, n, es[0]);
      StepKeepsInv(batchSize, n, es[0]);
      forall i | 0 <= i < |es[1..]|
        ensures !es[1..][i].TickFires?
      {
        assert es[1..][i] == es[i + 1];
      }
      ShutdownIsBounded(batchSize, Step(batchSize, n, es[0]), es[1..]);
    }
  }

  function WorkerEvent(n: Node, i: nat): Event
    requires i < |n.workers|
  {
    match n.workers[i]
    case Waiting => if n.channel != [] then Receive(i) else ExitWorker(i)
    case Received(_) => CountUp(i)
    case Executing(_) => Finish(i)
    case Executed => CountDown(i)
    case Exited => Return
  }

  /**
   Nor can it get stuck: in every state after the cancellation some goroutine can move,
   without waiting for a tick, until Start has returned. So shutdown always ends there,
   given that handlers return and the database answers.
   */
  lemma ShutdownNeverSticks(batchSize: nat, n: Node) returns (e: Event)
    requires Inv(batchSize, n) && n.main != Serving && n.main != Returned
    ensures !e.TickFires? && Enabled(batchSize, n, e)
  {
    match n.dispatcher
    case Asleep => e := StopDispatcher;
    case Polling(_) => e := CheckPool;
    case Entered(_) => e := SizeClaim;
    case Claiming(_, _) =>
      assert n.claimed + [] == n.claimed;
      e := Claim([]);
    case Submitting(_, _) =>
      e := if |n.channel| < |n.workers| then Submit else WorkerEvent(n, 0);
    case Stopped =>
      if n.loops > 0 {
        e := StopLoop;
      } else if n.main == Joining {
        e := CloseChannel;
      } else if i :| 0 <= i < |n.workers| && n.workers[i] != Exited {
        e := WorkerEvent(n, i);
      } else {
        e := Return;
      }
  }
}
