/**
 Enqueue, Retry and Cancel of backend/internal/service/job/service.go. Enqueue looks
 the idempotency key up and inserts later, in two statements others can come between.
 */
module JobService {
  import opened Domain
  import opened JobRepository
  import opened Queues
  import opened Store

  /** Optional overrides of the queue's defaults. */
  datatype Request = Request(
    key: Option<string>,
    priority: Option<int>,
    runAt: Option<Time>,
    maxRetries: Option<Int32>,
    strategy: Option<Strategy>,
    retryDelaySec: Option<Int32>,
    timeoutSec: Option<int>)

  datatype Response<+T> = Ok(value: T) | NotFound | Conflict

  function Or<T>(o: Option<T>, default: T): T {
    if o.Some? then o.value else default
  }

  predicate Delayed(req: Request, now: Time) {
    req.runAt.Some? && req.runAt.value > now
  }

  function NewJob(queueId: Id, q: Queue, req: Request, now: Time): Job {
    Job(queueId, None, req.key,
        if Delayed(req, now) then Scheduled else Pending,
        Or(req.priority, q.priority),
        if Delayed(req, now) then req.runAt.value else now,
        Or(req.maxRetries, q.maxRetries), 0, Or(req.strategy, q.strategy),
        Or(req.retryDelaySec, q.retryDelaySec), Or(req.timeoutSec, q.jobTimeoutSec),
        None, None, None, None)
  }

  /** Only a non-empty key is looked up first. */
  predicate LooksUp(req: Request) {
    req.key.Some? && req.key.value != ""
  }

  predicate KeyTaken(t: Table, req: Request) {
    req.key.Some? && HasKey(t, req.key.value)
  }

  /** A call finds the job already stored under its key. */
  predicate Finds(t: Table, req: Request, id: Id) {
    LooksUp(req) && id in t && t[id].key == req.key
  }

  /**
   What a successful call does: it finds a row in t, or after the statements `between`
   of other processes inserts under a fresh id.
   */
  ghost predicate EnqueuesAround(t: Table, req: Request, between: seq<Op>, u: Table, returned: Id) {
    if LooksUp(req) && KeyTaken(t, req) then Finds(t, req, returned) && u == t
    else
      var w := After(t, between);
      returned !in w
      && exists j: Job :: j.key == req.key && Issuable(w, Create(returned, j)) && u == Apply(w, Create(returned, j))
  }

  /** The same of an uninterrupted call. */
  ghost predicate Enqueues(t: Table, req: Request, u: Table, returned: Id) {
    EnqueuesAround(t, req, [], u, returned)
  }

  class JobService {
    const jobs: JobStore
    var queues: map<Id, Queue>

    constructor (jobs: JobStore, queues: map<Id, Queue>)
      ensures this.jobs == jobs && this.queues == queues
    {
      this.jobs, this.queues := jobs, queues;
    }

    method GetByIdempotencyKey(key: string) returns (found: Option<Id>)
      ensures found == None <==> !HasKey(jobs.rows, key)
      ensures found.Some? ==> found.value in jobs.rows && jobs.rows[found.value].key == Some(key)
    {
      found := None;
      var todo := jobs.rows.Keys;
      while todo != {}
        invariant todo <= jobs.rows.Keys && found == None
        invariant forall id :: id in jobs.rows && id !in todo ==> jobs.rows[id].key != Some(key)
        decreases todo
      {
        var id :| id in todo;
        if jobs.rows[id].key == Some(key) {
          return Some(id);
        }
        todo := todo - {id};
      }
    }

    /** The queue's defaults, then the request's overrides, then the delay. */
    method BuildJob(queueId: Id, q: Queue, req: Request, now: Time) returns (j: Job)
      ensures j == NewJob(queueId, q, req, now)
      ensures j.queue == queueId && j.key == req.key && j.attemptCount == 0
      ensures if req.priority.Some? then j.priority == req.priority.value else j.priority == q.priority
      ensures if req.maxRetries.Some? then j.maxRetries == req.maxRetries.value else j.maxRetries == q.maxRetries
      ensures if req.strategy.Some? then j.strategy == req.strategy.value else j.strategy == q.strategy
      ensures if req.retryDelaySec.Some? then j.retryDelaySec == req.retryDelaySec.value
              else j.retryDelaySec == q.retryDelaySec
      ensures if req.timeoutSec.Some? then j.timeoutSec == req.timeoutSec.value else j.timeoutSec == q.jobTimeoutSec
      ensures req.runAt == None || req.runAt.value <= now ==> j.status == Pending && j.runAt == now
      ensures req.runAt.Some? && req.runAt.value > now ==> j.status == Scheduled && j.runAt == req.runAt.value
      ensures Eligible(j, queueId, now) <==> req.runAt == None || req.runAt.value <= now
      ensures forall id, at :: Where(Promote(at), id, j) <==>
                               req.runAt.Some? && now < req.runAt.value && req.runAt.value <= at
      ensures NewRow(j) == j && forall id :: Issuable(jobs.rows, Create(id, j))
    {
      j := Job(queueId, None, None, Pending, q.priority, now, q.maxRetries, 0, q.strategy, q.retryDelaySec,
                   q.jobTimeoutSec, None, None, None, None);
      if req.priority.Some? {
        j := j.(priority := req.priority.value);
      }
      if req.maxRetries.Some? {
        j := j.(maxRetries := req.maxRetries.value);
      }
      if req.strategy.Some? {
        j := j.(strategy := req.strategy.value);
      }
      if req.retryDelaySec.Some? {
        j := j.(retryDelaySec := req.retryDelaySec.value);
      }
      if req.timeoutSec.Some? {
        j := j.(timeoutSec := req.timeoutSec.value);
      }
      if req.key.Some? {
        j := j.(key := req.key);
      }
      if req.runAt.Some? && req.runAt.value > now {
        j := j.(runAt := req.runAt.value, status := Scheduled);
      }
    }

    /** One call with no statement of another process in between; `id` is a fresh UUID. */
    method Enqueue(queueId: Id, req: Request, id: Id, now: Time) returns (r: Response<Id>)
      requires Valid(jobs.rows) && id !in jobs.rows
      modifies jobs
      ensures Valid(jobs.rows)
      ensures LooksUp(req) && KeyTaken(old(jobs.rows), req) ==>
                r.Ok? && Finds(old(jobs.rows), req, r.value) && jobs.rows == old(jobs.rows)
      ensures !(LooksUp(req) && KeyTaken(old(jobs.rows), req)) ==>
                if queueId !in queues then r == NotFound && jobs.rows == old(jobs.rows)
                else if queues[queueId].paused then r == Conflict && jobs.rows == old(jobs.rows)
                else r == Ok(id)
                     && jobs.rows == Apply(old(jobs.rows), Create(id, NewJob(queueId, queues[queueId], req, now)))
      ensures r.Ok? ==> Enqueues(old(jobs.rows), req, jobs.rows, r.value)
    {
      if req.key.Some? && req.key.value != "" {
        var existing := GetByIdempotencyKey(req.key.value);
        if existing.Some? {
          return Ok(existing.value);
        }
      }
      if queueId !in queues {
        return NotFound;
      }
      var q := queues[queueId];
      if q.paused {
        return Conflict;
      }
      var j := BuildJob(queueId, q, req, now);
      StepKeepsShape(jobs.rows, Create(id, j));
      var _ := jobs.Insert(id, j);
      r := Ok(id);
    }

    /** Puts a failed or dead job back to pending, due now, on the attempts it has used. */
    method Retry(id: Id, now: Time) returns (r: Response<()>)
      modifies jobs
      ensures r == NotFound <==> id !in old(jobs.rows)
      ensures r == Conflict <==> id in old(jobs.rows)
                                 && old(jobs.rows)[id].status != Failed && old(jobs.rows)[id].status != Dead
      ensures !r.Ok? ==> jobs.rows == old(jobs.rows)
      ensures r.Ok? ==> jobs.rows == old(jobs.rows)[id := old(jobs.rows)[id].(
                            status := Pending, runAt := now, claimedBy := None, claimedAt := None)]
    {
      if id !in jobs.rows {
        return NotFound;
      }
      var j := jobs.rows[id];
      if j.status != Failed && j.status != Dead {
        return Conflict;
      }
      jobs.ScheduleRetry(id, now, j.attemptCount);
      r := Ok(());
    }

    method Cancel(id: Id) returns (r: Response<()>)
      modifies jobs
      ensures r.Ok? <==> id in old(jobs.rows)
                         && (old(jobs.rows)[id].status == Pending || old(jobs.rows)[id].status == Scheduled)
      ensures !r.Ok? ==> r == Conflict && jobs.rows == old(jobs.rows)
      ensures r.Ok? ==> jobs.rows == old(jobs.rows)[id := old(jobs.rows)[id].(status := Cancelled)]
    {
      var ok := jobs.Cancel(id);
      r := if ok then Ok(()) else Conflict;
    }
  }

  // ----- Idempotency ---------------------------------------------------------------------

  /** The statements of others between a call's lookup and its insert leave its key alone. */
  predicate KeyStaysFree(t: Table, req: Request, between: seq<Op>) {
    !KeyTaken(t, req) ==> !KeyTaken(After(t, between), req)
  }

  /**
   Of two calls with the same non-empty key, the second begun after the first returned,
   the second finds the one stored row, whatever other statements run before, between
   and in them; and both return its id if and only if no one else created a row with the
   key between the first call's lookup and its insert. (Ids are fresh: one that was
   returned without being stored is not used for another row.)
   */
  lemma RepeatedCallsReturnTheStoredRow(t: Table, first: Request, between: seq<Op>, u: Table, a: Id,
                                        ops: seq<Op>, second: Request, later: seq<Op>, v: Table, b: Id)
    requires Valid(t) && LooksUp(first) && second.key == first.key
    requires AllIssuable(t, between) && EnqueuesAround(t, first, between, u, a)
    requires AllIssuable(u, ops) && EnqueuesAround(After(u, ops), second, later, v, b)
    requires a !in u ==> a !in After(u, ops)
    ensures v == After(u, ops) && b in v && v[b].key == first.key
    ensures a == b <==> KeyStaysFree(t, first, between)
  {
    FirstCallStoresKey(t, first, between, u, a);
    RunsKeepShape(u, ops);
    RunsKeepRows(u, ops);
    var w := After(u, ops);
    var id :| id in u && u[id].key == first.key && (KeyStaysFree(t, first, between) <==> id == a);
    assert id in w && SameIdentity(u[id], w[id]);
    assert KeyTaken(w, second);
  }

  lemma FirstCallStoresKey(t: Table, first: Request, between: seq<Op>, u: Table, a: Id)
    requires Valid(t) && LooksUp(first) && AllIssuable(t, between) && EnqueuesAround(t, first, between, u, a)
    ensures Valid(u)
    ensures exists id :: id in u && u[id].key == first.key && (KeyStaysFree(t, first, between) <==> id == a)
    ensures !KeyStaysFree(t, first, between) ==> a !in u
  {
    if KeyTaken(t, first) {
      assert a in u && u[a].key == first.key;
    } else {
      var w := After(t, between);
      var j: Job :| j.key == first.key && Issuable(w, Create(a, j)) && u == Apply(w, Create(a, j));
      RunsKeepShape(t, between);
      StepKeepsShape(w, Create(a, j));
      if KeyTaken(w, first) {
        var id :| id in w && w[id].key == first.key;
        assert id in u && id != a;
      } else {
        assert a in u && u[a].key == first.key;
      }
    }
  }

  /**
   In general, with any statements between the lookup and the insert: the returned id is
   stored if and only if no row holds the key at the insert; otherwise nothing changes
   and the caller is given an id that does not exist.
   */
  lemma ReturnedIdIsStoredIffKeyFree(t: Table, req: Request, j: Job, ops: seq<Op>, id: Id)
    requires Valid(t) && AllIssuable(t, ops) && id !in After(t, ops)
    requires j.key == req.key && Issuable(After(t, ops), Create(id, j))
    ensures var u := After(t, ops);
            var v := Apply(u, Create(id, j));
            && (id in v <==> !KeyTaken(u, req))
            && (id !in v ==> v == u)
            && Valid(v)
  {
    RunsKeepShape(t, ops);
    StepKeepsShape(After(t, ops), Create(id, j));
  }

  /** The empty key escapes the lookup: a second call is given an id that is not stored. */
  lemma EmptyKeyReturnsUnstoredId(q: Queue, now: Time)
    ensures var req := Request(Some(""), None, None, None, None, None, None);
            var t := Apply(map[], Create(0, NewJob(0, q, req, now)));
            var u := Apply(t, Create(1, NewJob(0, q, req, now)));
            !LooksUp(req) && 0 in t && u == t && 1 !in u
  {
    var req := Request(Some(""), None, None, None, None, None, None);
    var t := Apply(map[], Create(0, NewJob(0, q, req, now)));
    assert 0 in t && t[0].key == Some("");
    assert HasKey(t, "");
  }
}
