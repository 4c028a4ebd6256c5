/** Queues and the order the dispatcher visits them in (backend/internal/repository/postgres/queue.go). */
module Queues {
  import opened Domain
  import opened Ordering

  /** `name` is the place of the queue's name in the database's collation. */
  datatype Queue = Queue(
    name: int,
    priority: int,
    paused: bool,
    maxRetries: Int32,
    strategy: Strategy,
    retryDelaySec: Int32,
    jobTimeoutSec: int)

  function ActiveRanks(queues: map<Id, Queue>): map<Id, Rank> {
    map id | id in queues && !queues[id].paused :: Rank(queues[id].priority, queues[id].name)
  }

  /** Every queue that is not paused, once, by ascending priority and then name. */
  method ListActivePrioritized(queues: map<Id, Queue>) returns (order: seq<Id>)
    ensures Distinct(order)
    ensures forall id :: id in order <==> id in queues && !queues[id].paused
    ensures forall i, j :: 0 <= i < j < |order| ==>
                             || queues[order[i]].priority < queues[order[j]].priority
                             || (queues[order[i]].priority == queues[order[j]].priority
                                 && queues[order[i]].name <= queues[order[j]].name)
  {
    var ranks := ActiveRanks(queues);
    order := OrderBy(ranks, |ranks|);
    AllAreTaken(ranks, |ranks|, order);
  }
}
