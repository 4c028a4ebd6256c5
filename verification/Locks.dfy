/** Acquire and Release of backend/pkg/lock/lock.go when no other process steps in between. */
module Locks {
  import opened Domain
  import opened LockProtocol

  /** The entry that a process may take away under this token: its own, unless it has expired. */
  function Released(store: map<Key, Entry>, now: Time, key: Key, token: Token): map<Key, Entry> {
    if Present(store, now, key) && store[key].token == token then store - {key} else store
  }

  /** The protocol's SETNX, and its GET then DEL at one moment, are the two methods below. */
  lemma MethodsAreProtocolSteps(s: State, p: nat, key: Key, token: Token, ttl: Time)
    requires p < |s.procs|
    ensures Enabled(s, SetNX(p, key, token, ttl)) ==>
              var u := Step(s, SetNX(p, key, token, ttl));
              && (u.procs[p].Holder? <==> !Present(s.store, s.now, key))
              && u.store == if u.procs[p].Holder? then s.store[key := Entry(token, s.now + ttl)] else s.store
    ensures Enabled(s, Get(p)) ==>
              var h, u := s.procs[p], Step(s, Get(p));
              var v := if u.procs[p].Holder? then Step(u, Del(p)) else u;
              && v.procs[p] == Idle && v.stolen == s.stolen
              && v.store == Released(s.store, s.now, h.key, h.token)
  {
    if Enabled(s, Get(p)) {
      var u := Step(s, Get(p));
      assert u.procs[p].Holder? ==> Enabled(u, Del(p)) && Stolen(u, p) == {};
    }
  }

  class LockManager {
    var store: map<Key, Entry>

    constructor ()
      ensures store == map[]
    {
      store := map[];
    }

    method Acquire(key: Key, token: Token, ttl: Time, now: Time) returns (acquired: bool)
      modifies this
      ensures acquired <==> key !in old(store) || old(store)[key].expires <= now
      ensures store == if acquired then old(store)[key := Entry(token, now + ttl)] else old(store)
    {
      acquired := !Present(store, now, key);
      if acquired {
        store := store[key := Entry(token, now + ttl)];
      }
    }

    /** Deletes only an entry holding the token; another token is an error, none is fine. */
    method Release(key: Key, token: Token, now: Time) returns (ok: bool)
      modifies this
      ensures ok <==> Present(old(store), now, key) ==> old(store)[key].token == token
      ensures store == Released(old(store), now, key, token)
      ensures store == if key in old(store) && now < old(store)[key].expires && old(store)[key].token == token
                       then map k | k in old(store) && k != key :: old(store)[k] else old(store)
    {
      if !Present(store, now, key) {
        return true;
      }
      if store[key].token != token {
        return false;
      }
      store := store - {key};
      ok := true;
    }
  }
}
