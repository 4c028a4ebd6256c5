/** One execution of a claimed job and the write that ends it (backend/internal/worker/executor.go). */
module Executor {
  import opened Backoff
  import opened Domain
  import opened JobRepository
  import opened Store

  /** No handler for the type; the handler returned nil; it returned an error. */
  datatype Outcome = NoHandler | Success | Failure

  /**
   The statement that ends an execution of the job as it was read by the claim; None
   when computing the backoff panics and takes the node down.
   */
  function FinalWrite(id: Id, snap: Job, outcome: Outcome, at: Time, d: Draws): Option<Op> {
    match outcome
    case NoHandler => Some(MarkDead(id, at))
    case Success => Some(MarkSucceeded(id, at))
    case Failure =>
      var next := snap.attemptCount + 1;
      if next < snap.maxRetries then
        match Delay(ExecutorPolicy(snap.strategy, snap.retryDelaySec), next, d)
        case None => None
        case Some(delay) => Some(ScheduleRetry(id, at + delay, next))
      else Some(MarkDead(id, at))
  }

  /** Dead for good, at this time, on one more attempt; otherwise the same row. */
  predicate Died(before: Job, after: Job, at: Time) {
    after == before.(status := Dead, attemptCount := before.attemptCount + 1, completedAt := Some(at))
  }

  method Execute(store: JobStore, id: Id, snap: Job, outcome: Outcome, at: Time, d: Draws)
    returns (panicked: bool)
    modifies store
    ensures panicked <==> FinalWrite(id, snap, outcome, at, d) == None
    ensures panicked ==> store.rows == old(store.rows)
    // What becomes of the job.
    ensures !panicked && id !in old(store.rows) ==> store.rows == old(store.rows)
    ensures !panicked && id in old(store.rows) ==>
              id in store.rows && store.rows == old(store.rows)[id := store.rows[id]]
    ensures outcome == NoHandler && id in old(store.rows) ==>
              !panicked && Died(old(store.rows)[id], store.rows[id], at)
    ensures outcome == Success && id in old(store.rows) ==>
              !panicked && store.rows[id] == old(store.rows)[id].(status := Succeeded, completedAt := Some(at))
    ensures outcome == Failure && snap.attemptCount + 1 >= snap.maxRetries && id in old(store.rows) ==>
              !panicked && Died(old(store.rows)[id], store.rows[id], at)
    ensures outcome == Failure && snap.attemptCount + 1 < snap.maxRetries ==>
              var delay := Delay(ExecutorPolicy(snap.strategy, snap.retryDelaySec), snap.attemptCount + 1, d);
              && (panicked <==> delay == None)
              && (!panicked && id in old(store.rows) ==>
                    store.rows[id] == old(store.rows)[id].(
                                        status := Pending, runAt := at + delay.value,
                                        attemptCount := snap.attemptCount + 1, claimedBy := None, claimedAt := None))
    ensures !panicked ==> store.rows == Apply(old(store.rows), FinalWrite(id, snap, outcome, at, d).value)
  {
    panicked := false;
    if outcome == NoHandler {
      store.MarkDead(id, at);
      return;
    }
    if outcome == Success {
      store.MarkSucceeded(id, at);
      return;
    }
    var nextAttempt := snap.attemptCount + 1;
    if nextAttempt < snap.maxRetries {
      var delay := NextDelay(ExecutorPolicy(snap.strategy, snap.retryDelaySec), nextAttempt, d);
      if delay == None {
        return true;
      }
      store.ScheduleRetry(id, at + delay.value, nextAttempt);
    } else {
      store.MarkDead(id, at);
    }
  }
}
