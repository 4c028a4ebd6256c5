/**
 The jobs table as an object whose methods are the statements of
 backend/internal/repository/postgres/job.go, each run as one atomic step.
 ClaimBatch here is the whole transaction; ClaimProtocol takes it apart.
 */
module JobRepository {
  import opened Domain
  import opened Ordering
  import opened Stats
  import opened Store

  /** What the SELECT ... FOR UPDATE SKIP LOCKED of a claim ranges over, with its ORDER BY columns. */
  function Selectable(t: Table, queue: Id, locked: set<Id>, now: Time): map<Id, Rank> {
    map id | id in t && id !in locked && Eligible(t[id], queue, now) :: Rank(-t[id].priority, t[id].runAt)
  }

  function IdsOf(batch: seq<(Id, Job)>): seq<Id> {
    seq(|batch|, i requires 0 <= i < |batch| => batch[i].0)
  }

  class JobStore {
    var rows: Table

    constructor ()
      ensures rows == map[]
    {
      rows := map[];
    }

    method Insert(id: Id, job: Job) returns (stored: bool)
      modifies this
      ensures rows == Apply(old(rows), Create(id, job))
      ensures rows == if stored then old(rows)[id := job.(claimedBy := None, claimedAt := None, startedAt := None,
                                                           completedAt := None)] else old(rows)
      ensures stored <==> id !in old(rows) && !(job.key.Some? && HasKey(old(rows), job.key.value))
    {
      stored := false;
      if !(job.key.Some? && HasKey(rows, job.key.value)) && id !in rows {
        rows := rows[id := NewRow(job)];
        stored := true;
      }
    }

    /** Runs one UPDATE statement and returns RowsAffected. */
    method Update(op: Op) returns (affected: nat)
      requires !op.Create?
      modifies this
      ensures rows == Apply(old(rows), op)
      ensures affected == |Hits(old(rows), op)|
    {
      affected := |Hits(rows, op)|;
      var todo := Hits(rows, op);
      ghost var before := rows;
      while todo != {}
        invariant todo <= Hits(before, op) && rows.Keys == before.Keys
        invariant forall id :: id in before ==>
                    rows[id] == if id in Hits(before, op) - todo then Assign(op, before[id]) else before[id]
        decreases todo
      {
        var id :| id in todo;
        rows := rows[id := Assign(op, rows[id])];
        todo := todo - {id};
      }
    }

    method MarkSucceeded(id: Id, at: Time)
      modifies this
      ensures rows == Apply(old(rows), Op.MarkSucceeded(id, at))
      ensures rows == if id !in old(rows) then old(rows)
                      else old(rows)[id := old(rows)[id].(status := Succeeded, completedAt := Some(at))]
    {
      var _ := Update(Op.MarkSucceeded(id, at));
    }

    method MarkDead(id: Id, at: Time)
      modifies this
      ensures rows == Apply(old(rows), Op.MarkDead(id, at))
      ensures rows == if id !in old(rows) then old(rows)
                      else old(rows)[id := old(rows)[id].(status := Dead, completedAt := Some(at),
                                                          attemptCount := old(rows)[id].attemptCount + 1)]
    {
      var _ := Update(Op.MarkDead(id, at));
    }

    method ScheduleRetry(id: Id, runAt: Time, attempt: nat)
      modifies this
      ensures rows == Apply(old(rows), Op.ScheduleRetry(id, runAt, attempt))
      ensures rows == if id !in old(rows) then old(rows)
                      else old(rows)[id := old(rows)[id].(status := Pending, runAt := runAt, attemptCount := attempt,
                                                          claimedBy := None, claimedAt := None)]
    {
      var _ := Update(Op.ScheduleRetry(id, runAt, attempt));
    }

    /** Refused, with nothing changed, unless the job is pending or scheduled. */
    method Cancel(id: Id) returns (ok: bool)
      modifies this
      ensures ok <==> id in old(rows) && (old(rows)[id].status == Pending || old(rows)[id].status == Scheduled)
      ensures ok ==> rows == old(rows)[id := old(rows)[id].(status := Cancelled)]
      ensures !ok ==> rows == old(rows)
      ensures rows == Apply(old(rows), Op.Cancel(id))
    {
      var affected := Update(Op.Cancel(id));
      ok := affected != 0;
      assert id in Hits(old(rows), Op.Cancel(id)) ==> Hits(old(rows), Op.Cancel(id)) == {id};
      assert id !in Hits(old(rows), Op.Cancel(id)) ==> Hits(old(rows), Op.Cancel(id)) == {};
    }

    method PromoteScheduled(now: Time) returns (promoted: nat)
      modifies this
      ensures rows == Apply(old(rows), Promote(now))
      ensures rows == map id | id in old(rows) ::
                        var j := old(rows)[id];
                        if j.status == Scheduled && j.runAt <= now then j.(status := Pending) else j
      ensures Total(rows, Scheduled) == Total(old(rows), Scheduled) - promoted
      ensures Total(rows, Pending) == Total(old(rows), Pending) + promoted
    {
      promoted := Update(Promote(now));
      PromoteMoves(old(rows), now);
    }

    method ReclaimStale(visibility: int, now: Time) returns (reclaimed: nat)
      modifies this
      ensures rows == Apply(old(rows), Reclaim(visibility, now))
      ensures rows == map id | id in old(rows) ::
                        var j := old(rows)[id];
                        if j.status == Running && j.claimedAt.Some?
                           && j.claimedAt.value < now - WholeSeconds(visibility) * SECOND
                        then j.(status := Pending, claimedBy := None, claimedAt := None) else j
      ensures Total(rows, Running) == Total(old(rows), Running) - reclaimed
      ensures Total(rows, Pending) == Total(old(rows), Pending) + reclaimed
    {
      reclaimed := Update(Reclaim(visibility, now));
      ReclaimMoves(old(rows), visibility, now);
    }

    /**
     Claims up to batchSize eligible jobs of the queue for the worker, never past the
     concurrency limit, skipping the rows other transactions hold. Returns the rows as
     they were read, before the update. A negative LIMIT is a database error.
     */
    method ClaimBatch(queue: Id, worker: Id, batchSize: int, limit: int, locked: set<Id>, now: Time)
      returns (ok: bool, claimed: seq<(Id, Job)>)
      modifies this
      ensures rows == Apply(old(rows), Claim(worker, Elements(IdsOf(claimed)), now))
      ensures rows == map id | id in old(rows) ::
                        if id in IdsOf(claimed)
                        then old(rows)[id].(status := Running, claimedBy := Some(worker), claimedAt := Some(now),
                                            startedAt := Some(now))
                        else old(rows)[id]
      ensures Issuable(old(rows), Claim(worker, Elements(IdsOf(claimed)), now))
      ensures forall i :: 0 <= i < |claimed| ==>
                            && claimed[i].0 in old(rows)
                            && claimed[i].1 == old(rows)[claimed[i].0]
      ensures var room := limit - Count(old(rows), queue, Running);
              && (ok <==> room <= 0 || batchSize >= 0)
              && (room <= 0 || batchSize < 0 ==> claimed == [])
              && (room > 0 && batchSize >= 0 ==>
                    IsTop(Selectable(old(rows), queue, locked, now), Min(batchSize, room), IdsOf(claimed)))
      ensures Count(rows, queue, Running) == Count(old(rows), queue, Running) + |claimed|
      ensures Count(old(rows), queue, Running) <= limit ==> Count(rows, queue, Running) <= limit
    {
      claimed, ok := [], true;
      ghost var t := rows;
      var available := limit - Count(rows, queue, Running);
      if available <= 0 {
        NothingClaimed(t, worker, claimed, now);
        return;
      }
      var size := if available < batchSize then available else batchSize;
      if size < 0 {
        NothingClaimed(t, worker, claimed, now);
        ok := false;
        return;
      }

      var ids := OrderBy(Selectable(rows, queue, locked, now), size);
      for i := 0 to |ids|
        invariant |claimed| == i
        invariant forall k :: 0 <= k < i ==> claimed[k] == (ids[k], t[ids[k]])
      {
        assert ids[i] in ids;
        claimed := claimed + [(ids[i], rows[ids[i]])];
      }
      assert IdsOf(claimed) == ids;
      if |ids| == 0 {
        NothingClaimed(t, worker, claimed, now);
        return;
      }
      DistinctSize(ids);
      ClaimMoves(t, worker, Elements(ids), now, queue);
      var _ := Update(Claim(worker, Elements(ids), now));
    }

    lemma NothingClaimed(t: Table, worker: Id, batch: seq<(Id, Job)>, now: Time)
      requires batch == []
      ensures Elements(IdsOf(batch)) == {}
      ensures Apply(t, Claim(worker, {}, now)) == t
    {
    }
  }

  /**
   What the claim's ordering means: higher priority first, then earlier run_at; an
   eligible unlocked job that is left behind is never strictly ahead of a claimed one;
   and all eligible unlocked jobs are taken when they fit.
   */
  lemma ClaimTakesTheBest(t: Table, queue: Id, locked: set<Id>, now: Time, size: nat, ids: seq<Id>)
    requires IsTop(Selectable(t, queue, locked, now), size, ids)
    ensures forall id :: id in ids ==> id in t && id !in locked && Eligible(t[id], queue, now)
    ensures forall i, j :: 0 <= i < j < |ids| ==>
                             || t[ids[i]].priority > t[ids[j]].priority
                             || (t[ids[i]].priority == t[ids[j]].priority && t[ids[i]].runAt <= t[ids[j]].runAt)
    ensures forall id, c :: id in t && id !in locked && Eligible(t[id], queue, now) && id !in ids && c in ids ==>
                              || t[id].priority < t[c].priority
                              || (t[id].priority == t[c].priority && t[id].runAt >= t[c].runAt)
    ensures |Selectable(t, queue, locked, now)| <= size ==>
              forall id :: id in t && id !in locked && Eligible(t[id], queue, now) ==> id in ids
  {
    var ranks := Selectable(t, queue, locked, now);
    if |ranks| <= size {
      AllAreTaken(ranks, size, ids);
      forall id | id in t && id !in locked && Eligible(t[id], queue, now)
        ensures id in ids
      {
        assert id in ranks;
      }
    }
  }
}
