/**
 The Redis lock of backend/pkg/lock/lock.go over timed, interleaved steps: SETNX with a
 time to live, the guarded function, and a release that is a GET followed by a separate
 DEL. (The comment there speaks of an atomic Lua script; the code has none.)
 */
module LockProtocol {
  import opened Domain

  /** The one lock name in use is the cron definition and the minute of the tick. */
  datatype Key = Key(cron: Id, minute: int)

  type Token = nat

  datatype Entry = Entry(token: Token, expires: Time)

  /** Inside the function; function returned, release pending; GET has matched, DEL pending. */
  datatype Phase = Inside | Leaving | Matched(readAt: Time)

  datatype Process =
    | Idle
    | Holder(phase: Phase, key: Key, token: Token, expires: Time)

  /**
   `used` are the tokens drawn so far and `stolen` those whose unexpired entry was
   deleted by some other process.
   */
  datatype State = State(now: Time, store: map<Key, Entry>, procs: seq<Process>, used: set<Token>, stolen: set<Token>)

  datatype Event =
    | Tick(to: Time)
    | SetNX(p: nat, key: Key, token: Token, ttl: Time)
    | FnReturns(p: nat)
    | Get(p: nat)
    | Del(p: nat)
    | Crash(p: nat)

  /** An entry exists for other processes until its time to live has passed. */
  predicate Present(store: map<Key, Entry>, now: Time, key: Key) {
    key in store && now < store[key].expires
  }

  predicate InPhase(s: State, p: nat, phase: Phase) {
    p < |s.procs| && s.procs[p].Holder? && s.procs[p].phase == phase
  }

  predicate Enabled(s: State, e: Event) {
    match e
    case Tick(to) => s.now <= to
    case SetNX(p, _, token, ttl) => p < |s.procs| && s.procs[p] == Idle && token !in s.used && ttl > 0
    case FnReturns(p) => InPhase(s, p, Inside)
    case Get(p) => InPhase(s, p, Leaving)
    case Del(p) => p < |s.procs| && s.procs[p].Holder? && s.procs[p].phase.Matched?
    case Crash(p) => p < |s.procs|
  }

  /** What DEL takes away from another process. */
  function Stolen(s: State, p: nat): set<Token>
    requires Enabled(s, Del(p))
  {
    var h := s.procs[p];
    if Present(s.store, s.now, h.key) && s.store[h.key].token != h.token then {s.store[h.key].token} else {}
  }

  function Step(s: State, e: Event): State
    requires Enabled(s, e)
  {
    match e
    case Tick(to) => s.(now := to)
    case SetNX(p, key, token, ttl) =>
      if Present(s.store, s.now, key) then s.(used := s.used + {token})
      else s.(store := s.store[key := Entry(token, s.now + ttl)],
              procs := s.procs[p := Holder(Inside, key, token, s.now + ttl)],
              used := s.used + {token})
    case FnReturns(p) => s.(procs := s.procs[p := s.procs[p].(phase := Leaving)])
    case Get(p) =>
      var h := s.procs[p];
      if Present(s.store, s.now, h.key) && s.store[h.key].token == h.token
      then s.(procs := s.procs[p := h.(phase := Matched(s.now))])
      else s.(procs := s.procs[p := Idle])
    case Del(p) =>
      s.(store := s.store - {s.procs[p].key}, procs := s.procs[p := Idle], stolen := s.stolen + Stolen(s, p))
    case Crash(p) => s.(procs := s.procs[p := Idle])
  }

  predicate Start(s: State) {
    s.store == map[] && s.used == {} && s.stolen == {} && forall p :: 0 <= p < |s.procs| ==> s.procs[p] == Idle
  }

  /** Every holder's function and release are over before its time to live is. */
  predicate Timely(s: State) {
    forall p :: 0 <= p < |s.procs| && s.procs[p].Holder? ==> s.now < s.procs[p].expires
  }

  predicate Legal(s: State, es: seq<Event>)
    decreases es
  {
    es == [] || (Enabled(s, es[0]) && Legal(Step(s, es[0]), es[1..]))
  }

  function Exec(s: State, es: seq<Event>): State
    requires Legal(s, es)
    decreases es
  {
    if es == [] then s else Exec(Step(s, es[0]), es[1..])
  }

  predicate TimelyRun(s: State, es: seq<Event>)
    requires Legal(s, es)
    decreases es
  {
    Timely(s) && (es == [] || TimelyRun(Step(s, es[0]), es[1..]))
  }

  // ----- The invariant -----------------------------------------------------------------

  ghost predicate Owned(s: State, h: Process)
    requires h.Holder?
  {
    h.key in s.store && s.store[h.key] == Entry(h.token, h.expires)
  }

  /** An unexpired holder whose entry nobody stole still has it. */
  ghost predicate HolderOk(s: State, h: Process) {
    h.Holder? ==>
      && h.token in s.used
      && (h.phase.Matched? ==> h.phase.readAt <= s.now && h.phase.readAt < h.expires)
      && (s.now < h.expires && h.token !in s.stolen ==> Owned(s, h))
      && (h.key in s.store && s.store[h.key].token == h.token ==> s.store[h.key].expires == h.expires)
  }

  ghost predicate Inv(s: State) {
    && (forall p :: 0 <= p < |s.procs| ==> HolderOk(s, s.procs[p]))
    && (forall p, q :: 0 <= p < q < |s.procs| && s.procs[p].Holder? && s.procs[q].Holder? ==>
                         s.procs[p].token != s.procs[q].token)
    && (forall key :: key in s.store ==> s.store[key].token in s.used && s.store[key].token !in s.stolen)
    && (forall a, b :: a in s.store && b in s.store && s.store[a].token == s.store[b].token ==> a == b)
    && s.stolen <= s.used
  }

  lemma StepKeepsInv(s: State, e: Event)
    requires Inv(s) && Enabled(s, e)
    ensures Inv(Step(s, e))
  {
    var u := Step(s, e);
    forall p | 0 <= p < |u.procs|
      ensures HolderOk(u, u.procs[p])
    {
      HolderKept(s, e, p);
    }
  }

  lemma HolderKept(s: State, e: Event, p: nat)
    requires Inv(s) && Enabled(s, e) && p < |s.procs|
    ensures HolderOk(Step(s, e), Step(s, e).procs[p])
  {
    assert HolderOk(s, s.procs[p]);
  }

  lemma {:induction false} RunsKeepInv(s: State, es: seq<Event>)
    requires Inv(s) && Legal(s, es)
    ensures Inv(Exec(s, es))
    decreases es
  {
    if es != [] {
      StepKeepsInv(s, es[0]);
      RunsKeepInv(Step(s, es[0]), es[1..]);
    }
  }

  /** While every holder is timely nothing is ever stolen. */
  lemma TimelyStepStealsNothing(s: State, e: Event)
    requires Inv(s) && Timely(s) && s.stolen == {} && Enabled(s, e)
    ensures Step(s, e).stolen == {}
  {
    if e.Del? {
      assert HolderOk(s, s.procs[e.p]);
    }
  }

  lemma {:induction false} TimelyRunsStealNothing(s: State, es: seq<Event>)
    requires Inv(s) && s.stolen == {} && Legal(s, es) && TimelyRun(s, es)
    ensures Exec(s, es).stolen == {} && Timely(Exec(s, es)) && Inv(Exec(s, es))
    decreases es
  {
    if es != [] {
      TimelyStepStealsNothing(s, es[0]);
      StepKeepsInv(s, es[0]);
      TimelyRunsStealNothing(Step(s, es[0]), es[1..]);
    }
  }

  // ----- Theorems -------------------------------------------------------------------------

  /** In timely runs at most one process per key is between acquiring and releasing. */
  lemma MutualExclusion(s: State, es: seq<Event>, p: nat, q: nat)
    requires Start(s) && Legal(s, es) && TimelyRun(s, es)
    requires p < |Exec(s, es).procs| && q < |Exec(s, es).procs|
    requires Exec(s, es).procs[p].Holder? && Exec(s, es).procs[q].Holder?
    requires Exec(s, es).procs[p].key == Exec(s, es).procs[q].key
    ensures p == q
  {
    TimelyRunsStealNothing(s, es);
    OneHolderPerKey(Exec(s, es), p, q);
  }

  lemma OneHolderPerKey(s: State, p: nat, q: nat)
    requires Inv(s) && Timely(s) && s.stolen == {}
    requires p < |s.procs| && q < |s.procs| && s.procs[p].Holder? && s.procs[q].Holder?
    requires s.procs[p].key == s.procs[q].key
    ensures p == q
  {
    assert HolderOk(s, s.procs[p]) && HolderOk(s, s.procs[q]);
    assert s.procs[p].token == s.procs[q].token;
  }

  /**
   In any run: beside a holder of the key another process acquires it if and only if no
   entry is present, and then the holder's time to live has ended or its entry was stolen.
   */
  lemma SecondHolderHasACause(s: State, es: seq<Event>, p: nat, q: nat, token: Token, ttl: Time)
    requires Start(s) && Legal(s, es) && q < |Exec(s, es).procs| && Exec(s, es).procs[q].Holder?
    requires Enabled(Exec(s, es), SetNX(p, Exec(s, es).procs[q].key, token, ttl))
    ensures var u := Exec(s, es);
            var h := u.procs[q];
            var v := Step(u, SetNX(p, h.key, token, ttl));
            && (v.procs[p].Holder? <==> !Present(u.store, u.now, h.key))
            && (v.procs[p].Holder? ==> h.expires <= u.now || h.token in u.stolen)
  {
    RunsKeepInv(s, es);
    assert HolderOk(Exec(s, es), Exec(s, es).procs[q]);
  }

  /** A holder that crashes leaves its entry behind, which keeps the key locked exactly until it expires. */
  lemma CrashedHolderBlocksUntilExpiry(s: State, es: seq<Event>, p: nat, to: Time, q: nat, token: Token, ttl: Time)
    requires Start(s) && Legal(s, es) && p < |Exec(s, es).procs| && Exec(s, es).procs[p].Holder?
    requires Owned(Exec(s, es), Exec(s, es).procs[p]) && to >= Exec(s, es).now
    requires q < |Exec(s, es).procs| && Exec(s, es).procs[q] == Idle && token !in Exec(s, es).used && ttl > 0
    ensures var u := Exec(s, es);
            var h := u.procs[p];
            var v := Step(Step(u, Crash(p)), Tick(to));
            && v.store == u.store && v.procs == u.procs[p := Idle] && v.now == to
            && Enabled(v, SetNX(q, h.key, token, ttl))
            && (Step(v, SetNX(q, h.key, token, ttl)).procs[q].Holder? <==> to >= h.expires)
  {
  }

  /** In timely runs a release deletes its own entry and no other. */
  lemma ReleaseDeletesItsOwn(s: State, es: seq<Event>, p: nat)
    requires Start(s) && Legal(s, es) && TimelyRun(s, es) && Enabled(Exec(s, es), Del(p))
    ensures var u := Exec(s, es);
            && Owned(u, u.procs[p])
            && Step(u, Del(p)).store == u.store - {u.procs[p].key}
            && Step(u, Del(p)).stolen == {}
  {
    TimelyRunsStealNothing(s, es);
    var u := Exec(s, es);
    assert HolderOk(u, u.procs[p]);
    TimelyStepStealsNothing(u, Del(p));
  }

  /**
   In any run: a DEL deletes another process's entry if and only if there is an entry and
   the release's own time to live has ended or its own entry was stolen. Both happened
   between its GET and its DEL: at the GET it was neither expired nor stolen.
   */
  lemma ForeignDeletionHasACause(s: State, es: seq<Event>, p: nat)
    requires Start(s) && Legal(s, es) && Enabled(Exec(s, es), Del(p))
    ensures var u := Exec(s, es);
            var h := u.procs[p];
            && h.phase.readAt < h.expires
            && (Stolen(u, p) != {} <==>
                  Present(u.store, u.now, h.key) && (h.expires <= u.now || h.token in u.stolen))
  {
    RunsKeepInv(s, es);
    var u := Exec(s, es);
    var h := u.procs[p];
    assert HolderOk(u, h);
    if Present(u.store, u.now, h.key) && Stolen(u, p) == {} {
      assert u.store[h.key].expires == h.expires;
    }
  }

  lemma MatchedIsNotStolen(s: State, es: seq<Event>, p: nat)
    requires Start(s) && Legal(s, es) && Enabled(Exec(s, es), Get(p))
    ensures var u := Step(Exec(s, es), Get(p));
            u.procs[p].Holder? ==> u.now < u.procs[p].expires && u.procs[p].token !in u.stolen
  {
    RunsKeepInv(s, es);
    assert HolderOk(Exec(s, es), Exec(s, es).procs[p]);
  }

  /** So the first theft of a run is always by a release that outlived its time to live. */
  lemma FirstTheftIsLate(s: State, es: seq<Event>, p: nat)
    requires Start(s) && Legal(s, es) && Enabled(Exec(s, es), Del(p))
    requires Exec(s, es).stolen == {} && Step(Exec(s, es), Del(p)).stolen != {}
    ensures var u := Exec(s, es);
            u.procs[p].phase.readAt < u.procs[p].expires <= u.now
  {
    ForeignDeletionHasACause(s, es, p);
  }

  /** No DEL of the run finds an entry in place after its own time to live. */
  predicate DelsInTime(s: State, es: seq<Event>)
    requires Legal(s, es)
    decreases es
  {
    es == []
    || ((es[0].Del? ==>
           var h := s.procs[es[0].p];
           Present(s.store, s.now, h.key) ==> s.now < h.expires)
        && DelsInTime(Step(s, es[0]), es[1..]))
  }

  /** In a whole run releases delete nothing but their own entries if and only if every DEL is in time. */
  lemma NothingStolenExactlyInTime(s: State, es: seq<Event>)
    requires Start(s) && Legal(s, es)
    ensures Exec(s, es).stolen == {} <==> DelsInTime(s, es)
  {
    StealsNothingExactlyInTime(s, es);
  }

  lemma {:induction false} StealsNothingExactlyInTime(s: State, es: seq<Event>)
    requires Inv(s) && s.stolen == {} && Legal(s, es)
    ensures Exec(s, es).stolen == {} <==> DelsInTime(s, es)
    decreases es
  {
    if es != [] {
      var u := Step(s, es[0]);
      StepKeepsInv(s, es[0]);
      if es[0].Del? {
        assert HolderOk(s, s.procs[es[0].p]);
      }
      if u.stolen == {} {
        StealsNothingExactlyInTime(u, es[1..]);
      } else {
        StolenStays(u, es[1..]);
      }
    }
  }

  lemma {:induction false} StolenStays(s: State, es: seq<Event>)
    requires Legal(s, es)
    ensures s.stolen <= Exec(s, es).stolen
    decreases es
  {
    if es != [] {
      StolenStays(Step(s, es[0]), es[1..]);
    }
  }

  // ----- A theft spreads -------------------------------------------------------------------

  lemma Prepend(s: State, e: Event, es: seq<Event>)
    requires Enabled(s, e) && Legal(Step(s, e), es)
    ensures Legal(s, [e] + es) && Exec(s, [e] + es) == Exec(Step(s, e), es)
  {
    assert ([e] + es)[1..] == es;
  }

  lemma {:induction false} RunsCompose(s: State, a: seq<Event>, b: seq<Event>)
    requires Legal(s, a) && Legal(Exec(s, a), b)
    ensures Legal(s, a + b) && Exec(s, a + b) == Exec(Exec(s, a), b)
    decreases a
  {
    if a == [] {
      assert a + b == b;
    } else {
      assert (a + b)[0] == a[0] && (a + b)[1..] == a[1..] + b;
      RunsCompose(Step(s, a[0]), a[1..], b);
    }
  }

  /** Acquire, run the function, and GET the matching token, all at one moment. */
  lemma HoldAndMatch(s: State, p: nat, key: Key, token: Token, ttl: Time) returns (es: seq<Event>)
    requires Enabled(s, SetNX(p, key, token, ttl)) && !Present(s.store, s.now, key)
    ensures Legal(s, es)
    ensures Exec(s, es) == s.(
              store := s.store[key := Entry(token, s.now + ttl)],
              procs := s.procs[p := Holder(Matched(s.now), key, token, s.now + ttl)],
              used := s.used + {token})
  {
    var s1 := Step(s, SetNX(p, key, token, ttl));
    var s2 := Step(s1, FnReturns(p));
    var s3 := Step(s2, Get(p));
    assert s3.procs == s.procs[p := Holder(Matched(s.now), key, token, s.now + ttl)];
    assert Legal(s3, []);
    Prepend(s2, Get(p), []);
    Prepend(s1, FnReturns(p), [Get(p)] + []);
    Prepend(s, SetNX(p, key, token, ttl), [FnReturns(p)] + ([Get(p)] + []));
    es := [SetNX(p, key, token, ttl)] + ([FnReturns(p)] + ([Get(p)] + []));
  }

  /**
   Lateness of one release can make a timely one delete a foreign entry: process 0
   outlives its time to live and deletes the entry of process 1, process 2 acquires, and
   process 1, whose own time to live has not passed, deletes the entry of process 2.
   */
  lemma TimelyReleaseCanDeleteForeignEntry(key: Key, ttl: Time) returns (s: State, es: seq<Event>)
    requires ttl > 0
    ensures Start(s) && Legal(s, es) && Enabled(Exec(s, es), Del(1))
    ensures var u := Exec(s, es);
            u.now < u.procs[1].expires && Stolen(u, 1) != {} && InPhase(u, 2, Inside)
  {
    s := State(0, map[], [Idle, Idle, Idle], {}, {});
    var first := HoldAndMatch(s, 0, key, 0, ttl);
    var s1 := Exec(s, first);
    var s2 := Step(s1, Tick(ttl));
    var second := HoldAndMatch(s2, 1, key, 1, ttl);
    var s3 := Exec(s2, second);
    var s4 := Step(s3, Del(0));
    var s5 := Step(s4, SetNX(2, key, 2, ttl));
    assert Legal(s5, []);
    Prepend(s4, SetNX(2, key, 2, ttl), []);
    var end := [SetNX(2, key, 2, ttl)] + [];
    Prepend(s3, Del(0), end);
    RunsCompose(s2, second, [Del(0)] + end);
    Prepend(s1, Tick(ttl), second + ([Del(0)] + end));
    RunsCompose(s, first, [Tick(ttl)] + (second + ([Del(0)] + end)));
    es := first + ([Tick(ttl)] + (second + ([Del(0)] + end)));
  }
}
