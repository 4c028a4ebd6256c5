/**
 The worker node as an object: the fields of Pool, Dispatcher and Service that the
 goroutines share, and one method for each atomic action of a goroutine. A method's
 precondition is that the goroutine is there and need not wait.
 */
module WorkerService {
  import opened Domain
  import opened WorkerNode

  class WorkerService {
    const batchSize: nat
    const concurrency: nat
    var jobsChan: seq<Token>
    var closed: bool
    var active: int
    var workers: seq<Worker>
    var dispatcher: Dispatcher
    var loops: nat
    var main: Main
    ghost var claimed: seq<Token>
    ghost var received: seq<Token>
    ghost var done: seq<Token>

    ghost function State(): Node
      reads this
    {
      Node(jobsChan, closed, active, workers, dispatcher, loops, main, claimed, received, done)
    }

    ghost predicate Valid()
      reads this
    {
      Inv(batchSize, State()) && |workers| == concurrency
    }

    ghost predicate May(e: Event)
      reads this
    {
      Valid() && Enabled(batchSize, State(), e)
    }

    twostate predicate Did(e: Event)
      reads this
    {
      old(May(e)) && Valid() && State() == Step(batchSize, old(State()), e)
    }

    constructor (concurrency: nat, batchSize: nat, loops: nat)
      ensures Valid() && Start(State())
      ensures this.concurrency == concurrency && this.batchSize == batchSize && this.loops == loops
    {
      this.concurrency, this.batchSize, this.loops := concurrency, batchSize, loops;
      jobsChan, closed, active := [], false, 0;
      workers := seq(concurrency, _ => Waiting);
      dispatcher, main := Asleep, Serving;
      claimed, received, done := [], [], [];
      new;
      StartIsInv(batchSize, State());
    }

    method AvailableWorkers() returns (idle: int)
      requires Valid()
      ensures idle == WorkerNode.AvailableWorkers(State()) && 0 <= idle <= concurrency
    {
      ActiveInRange(batchSize, State());
      idle := concurrency - active;
    }

    // ----- dispatcher.go ------------------------------------------------------------

    method Tick(queues: nat)
      requires May(TickFires(queues))
      modifies this`dispatcher
      ensures Did(TickFires(queues)) && dispatcher == Polling(queues)
    {
      StepKeepsInv(batchSize, State(), TickFires(queues));
      dispatcher := Polling(queues);
    }

    /** The head of dispatchAll's loop: on to the next queue, unless none is left or all workers are busy. */
    method PollNext()
      requires May(CheckPool)
      modifies this`dispatcher
      ensures Did(CheckPool)
      ensures dispatcher == Asleep <==> old(dispatcher).queues == 0 || active == concurrency
      ensures dispatcher != Asleep ==> dispatcher == Entered(old(dispatcher).queues - 1)
    {
      StepKeepsInv(batchSize, State(), CheckPool);
      var left := dispatcher.queues;
      var idle := AvailableWorkers();
      if left == 0 || idle <= 0 {
        dispatcher := Asleep;
      } else {
        dispatcher := Entered(left - 1);
      }
    }

    /** The head of dispatchQueue: claim for the idle workers, or pass the queue over if there are none. */
    method ChooseClaimSize()
      requires May(SizeClaim)
      modifies this`dispatcher
      ensures Did(SizeClaim)
      ensures active == concurrency ==> dispatcher == Polling(old(dispatcher).queues)
      ensures active < concurrency ==>
                dispatcher.Claiming? && dispatcher.queues == old(dispatcher).queues
                && dispatcher.size <= batchSize && dispatcher.size <= concurrency - active
                && (dispatcher.size == batchSize || dispatcher.size == concurrency - active)
    {
      StepKeepsInv(batchSize, State(), SizeClaim);
      var available := AvailableWorkers();
      if available <= 0 {
        dispatcher := Polling(dispatcher.queues);
        return;
      }
      var claimSize := batchSize;
      if available < claimSize {
        claimSize := available;
      }
      dispatcher := Claiming(claimSize, dispatcher.queues);
    }

    /** The claim has returned: its jobs are now the node's, all still to be submitted. */
    method TakeBatch(batch: seq<Token>)
      requires May(Event.Claim(batch))
      modifies this`dispatcher, this`claimed
      ensures Did(Event.Claim(batch))
      ensures claimed == old(claimed) + batch && Unsubmitted(dispatcher) == batch
      ensures batch == [] ==> dispatcher == Polling(old(dispatcher).queues)
      ensures batch != [] ==> dispatcher == Submitting(batch, old(dispatcher).queues)
    {
      StepKeepsInv(batchSize, State(), Event.Claim(batch));
      claimed := claimed + batch;
      dispatcher := Submitted(batch, dispatcher.queues);
    }

    // ----- pool.go --------------------------------------------------------------------

    /** Puts the batch's first job behind those in the channel, which is open and has room. */
    method Submit()
      requires May(Event.Submit)
      modifies this`jobsChan, this`dispatcher
      ensures Did(Event.Submit) && !closed && |jobsChan| <= concurrency
      ensures jobsChan == old(jobsChan) + [Unsubmitted(old(dispatcher))[0]]
      ensures jobsChan + Unsubmitted(dispatcher) == old(jobsChan) + Unsubmitted(old(dispatcher))
      ensures |old(dispatcher).batch| == 1 ==> dispatcher == Polling(old(dispatcher).queues)
      ensures |old(dispatcher).batch| > 1 ==>
                dispatcher == Submitting(old(dispatcher).batch[1..], old(dispatcher).queues)
    {
      StepKeepsInv(batchSize, State(), Event.Submit);
      jobsChan := jobsChan + [dispatcher.batch[0]];
      dispatcher := Submitted(dispatcher.batch[1..], dispatcher.queues);
      assert Unsubmitted(dispatcher) == Unsubmitted(old(dispatcher))[1..];
    }

    /** The oldest job in the channel goes to the worker; the counter, not in the frame, lags behind. */
    method ReceiveJob(i: nat)
      requires May(Receive(i))
      modifies this`jobsChan, this`received, this`workers
      ensures Did(Receive(i))
      ensures [received[|received| - 1]] + jobsChan == old(jobsChan) && received == old(received) + old(jobsChan)[..1]
      ensures workers[i] == Received(old(jobsChan)[0])
      ensures forall k :: 0 <= k < concurrency && k != i ==> workers[k] == old(workers)[k]
    {
      StepKeepsInv(batchSize, State(), Receive(i));
      var job := jobsChan[0];
      jobsChan := jobsChan[1..];
      received := received + [job];
      workers := workers[i := Received(job)];
    }

    method BeginExecution(i: nat)
      requires May(CountUp(i))
      modifies this`active, this`workers
      ensures Did(CountUp(i))
      ensures active == old(active) + 1 && active <= concurrency
      ensures workers == old(workers)[i := Executing(old(workers)[i].job)]
    {
      StepKeepsInv(batchSize, State(), CountUp(i));
      active := active + 1;
      workers := workers[i := Executing(workers[i].job)];
      ActiveInRange(batchSize, State());
    }

    method FinishExecution(i: nat)
      requires May(Finish(i))
      modifies this`done, this`workers
      ensures Did(Finish(i))
      ensures old(workers)[i] == Executing(done[|done| - 1]) && done[..|done| - 1] == old(done)
      ensures workers == old(workers)[i := Executed]
      ensures done[|done| - 1] in received && done[|done| - 1] !in old(done)
    {
      StepKeepsInv(batchSize, State(), Finish(i));
      FinishesOnce(batchSize, State(), i);
      done := done + [workers[i].job];
      workers := workers[i := Executed];
    }

    method EndExecution(i: nat)
      requires May(CountDown(i))
      modifies this`active, this`workers
      ensures Did(CountDown(i))
      ensures active == old(active) - 1 && active >= 0 && workers == old(workers)[i := Waiting]
    {
      StepKeepsInv(batchSize, State(), CountDown(i));
      active := active - 1;
      workers := workers[i := Waiting];
      ActiveInRange(batchSize, State());
    }

    // ----- service.go -----------------------------------------------------------------

    /** The other actions change one field each, and no queue, counter or history. */
    method ControlStep(e: Event)
      requires e.StopDispatcher? || e.ExitWorker? || e.Cancel? || e.StopLoop? || e.CloseChannel? || e.Return?
      requires May(e)
      modifies this`dispatcher, this`workers, this`main, this`loops, this`closed
      ensures Did(e)
      ensures dispatcher == if e.StopDispatcher? then Stopped else old(dispatcher)
      ensures workers == if e.ExitWorker? then old(workers)[e.worker := Exited] else old(workers)
      ensures loops == if e.StopLoop? then old(loops) - 1 else old(loops)
      ensures closed == (old(closed) || e.CloseChannel?)
      ensures main == match e
                      case Cancel => Joining
                      case CloseChannel => Draining
                      case Return => Returned
                      case _ => old(main)
      ensures closed && !old(closed) ==> dispatcher == Stopped && loops == 0 && Unsubmitted(dispatcher) == []
      ensures main == Returned ==> closed && forall i :: 0 <= i < concurrency ==> workers[i] == Exited
    {
      StepKeepsInv(batchSize, State(), e);
      match e
      case StopDispatcher => dispatcher := Stopped;
      case ExitWorker(i) => workers := workers[i := Exited];
      case Cancel => main := Joining;
      case StopLoop => loops := loops - 1;
      case CloseChannel => closed, main := true, Draining;
      case Return => main := Returned;
    }

    method Do(e: Event)
      requires May(e)
      modifies this
      ensures Did(e)
    {
      match e
      case TickFires(queues) => Tick(queues);
      case CheckPool => PollNext();
      case SizeClaim => ChooseClaimSize();
      case Claim(batch) => TakeBatch(batch);
      case Submit => Submit();
      case Receive(i) => ReceiveJob(i);
      case CountUp(i) => BeginExecution(i);
      case Finish(i) => FinishExecution(i);
      case CountDown(i) => EndExecution(i);
      case _ => ControlStep(e);
    }

    /**
     Any schedule of the goroutines, from the start on. Jobs leave the channel in the order
     they were claimed, none is lost or doubled, and once Start has returned all are done.
     */
    method Serve(es: seq<Event>)
      requires Valid() && Start(State()) && Legal(batchSize, State(), es)
      modifies this
      ensures Valid() && claimed == received + jobsChan + Unsubmitted(dispatcher)
      ensures forall i, k :: 0 <= i < k < |claimed| ==> claimed[i] != claimed[k]
      ensures |claimed| - |done| <= 2 * concurrency + Min(batchSize, concurrency)
      ensures main == Returned ==> multiset(done) == multiset(claimed)
    {
      ghost var n := State();
      JobsAreConserved(batchSize, n, es);
      RunSchedule(es);
      if main == Returned {
        ShutdownExecutesEverything(batchSize, n, es);
      }
    }

    /** Any schedule of the goroutines is a run of WorkerNode. */
    method RunSchedule(es: seq<Event>)
      requires Valid() && Legal(batchSize, State(), es)
      modifies this
      ensures Valid() && State() == Exec(batchSize, old(State()), es)
    {
      var k := 0;
      while k < |es|
        invariant 0 <= k <= |es| && Valid()
        invariant Legal(batchSize, State(), es[k..])
        invariant Exec(batchSize, State(), es[k..]) == Exec(batchSize, old(State()), es)
      {
        assert es[k..][0] == es[k] && es[k..][1..] == es[k + 1..];
        Do(es[k]);
        k := k + 1;
      }
    }
  }
}
