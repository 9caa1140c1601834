/** Redis leases (core/redis.py): `SET key owner NX EX ttl`, and a release that deletes the key only
    while it still holds the owner's id. Times are milliseconds. */
module Lease {
  function RenewalLockKey(subscriptionId: string): string { "renewal_lock:" + subscriptionId }

  function PurchaseLockKey(telegramId: string): string { "purchase_lock:" + telegramId }

  /** One key per subscription and one per user, and never the same key for both. */
  lemma KeysAreDistinct(a: string, b: string)
    ensures RenewalLockKey(a) == RenewalLockKey(b) <==> a == b
    ensures PurchaseLockKey(a) == PurchaseLockKey(b) <==> a == b
    ensures RenewalLockKey(a) != PurchaseLockKey(b)
  {
    assert RenewalLockKey(a)[13..] == a && RenewalLockKey(b)[13..] == b;
    assert PurchaseLockKey(a)[14..] == a && PurchaseLockKey(b)[14..] == b;
    assert RenewalLockKey(a)[0] != PurchaseLockKey(b)[0];
  }

  // ── The shared store ──────────────────────────────────────────────────────────────────────

  datatype Entry<Owner> = Entry(owner: Owner, deadline: int)

  type Store = map<string, Entry<string>>

  predicate Alive(store: Store, key: string, now: int) { key in store && now < store[key].deadline }

  /** A command with no positive lifetime is an error to Redis and sets nothing. */
  predicate MaySet(store: Store, key: string, ttl: int, now: int) { ttl > 0 && !Alive(store, key, now) }

  function Set(store: Store, key: string, owner: string, ttl: int, now: int): Store {
    if MaySet(store, key, ttl, now) then store[key := Entry(owner, now + ttl * 1000)] else store
  }

  predicate MayDelete(store: Store, key: string, owner: string, now: int) {
    Alive(store, key, now) && store[key].owner == owner
  }

  function Release(store: Store, key: string, owner: string, now: int): Store {
    if MayDelete(store, key, owner, now) then store - {key} else store
  }

  class Redis {
    var store: Store
    var now: int

    constructor ()
      ensures store == map[]
    {
      store, now := map[], 0;
    }

    /** Redis drops a key that has run out before it looks at it. */
    method DropExpired(key: string)
      modifies this`store
      ensures store == if key in old(store) && !Alive(old(store), key, now) then old(store) - {key} else old(store)
    {
      if key in store && store[key].deadline <= now {
        store := store - {key};
      }
    }

    method SetNxEx(key: string, owner: string, ttl: int) returns (ok: bool)
      modifies this`store
      ensures ok <==> ttl > 0 && (key in old(store) ==> old(store)[key].deadline <= now)
      ensures ok ==> store == Set(old(store), key, owner, ttl, now) == old(store)[key := Entry(owner, now + 1000 * ttl)]
      ensures !ok ==> forall k :: Alive(store, k, now) == Alive(old(store), k, now)
                                  && (Alive(store, k, now) ==> store[k] == old(store)[k])
    {
      if ttl <= 0 {
        return false;
      }
      DropExpired(key);
      if key in store {
        return false;
      }
      store := store[key := Entry(owner, now + ttl * 1000)];
      assert store == old(store)[key := Entry(owner, now + ttl * 1000)];
      return true;
    }

    /** The release script: `get`, compare, `del`, in one step. */
    method EvalRelease(key: string, owner: string) returns (deleted: nat)
      modifies this`store
      ensures deleted == if key in old(store) && now < old(store)[key].deadline && old(store)[key].owner == owner
                         then 1 else 0
      ensures deleted == 1 ==> key !in store
      ensures forall k :: Alive(store, k, now) == Alive(Release(old(store), key, owner, now), k, now)
                          && (Alive(store, k, now) ==> store[k] == old(store)[k])
    {
      DropExpired(key);
      if key in store && store[key].owner == owner {
        store := store - {key};
        return 1;
      }
      return 0;
    }
  }

  /** `distributed_lock` as the caller's two moments: entering the block, and leaving it. */
  class DistributedLock {
    const redis: Redis
    const key: string
    const ownerId: string
    var acquired: bool

    constructor (redis: Redis, key: string, ownerId: string, ttl: int)
      modifies redis`store
      ensures this.redis == redis && this.key == key && this.ownerId == ownerId
      ensures acquired <==> ttl > 0 && (key in old(redis.store) ==> old(redis.store)[key].deadline <= redis.now)
      ensures acquired ==> redis.store == Set(old(redis.store), key, ownerId, ttl, redis.now)
      ensures !acquired ==> forall k :: Alive(redis.store, k, redis.now) == Alive(old(redis.store), k, redis.now)
                                        && (Alive(redis.store, k, redis.now) ==> redis.store[k] == old(redis.store)[k])
    {
      this.redis, this.key, this.ownerId := redis, key, ownerId;
      var ok := redis.SetNxEx(key, ownerId, ttl);
      acquired := ok;
    }

    /** However late: other keys, and this key once it is somebody else's, stay as they are. */
    method Exit()
      modifies redis`store
      ensures forall k :: Alive(old(redis.store), k, redis.now) ==>
                k != key || old(redis.store)[k].owner != ownerId || !acquired ==>
                  Alive(redis.store, k, redis.now) && redis.store[k] == old(redis.store)[k]
      ensures acquired && key in old(redis.store) && old(redis.store)[key].owner == ownerId
              ==> !Alive(redis.store, key, redis.now)
    {
      if acquired {
        var deleted := redis.EvalRelease(key, ownerId);
      }
    }
  }

  // ── Any number of processes ───────────────────────────────────────────────────────────────

  /** `until` is when the lease that was granted runs out; the holder is not told. */
  datatype Process = Outside | Inside(key: string, owner: string, until: int) | Turned(key: string)

  datatype System = System(store: Store, now: int, used: set<string>, procs: seq<Process>)

  /** `owner` stands for `uuid4().hex`: one that was used before is not drawn again. */
  datatype Action =
    | Tick(ms: nat)
    | Enter(p: nat, key: string, owner: string, ttl: int)
    | EnterUnheard(p: nat, key: string, owner: string, ttl: int)  // Redis took it, the reply was lost
    | Leave(p: nat)
    | LeaveUnheard(p: nat)                                        // the release call failed
    | Crash(p: nat)

  function Next(s: System, a: Action): System {
    if a.Tick? then s.(now := s.now + a.ms)
    else if a.p >= |s.procs| then s
    else
      var p, proc := a.p, s.procs[a.p];
      match a
      case Tick(_) => s
      case Enter(_, key, owner, ttl) =>
        if !proc.Outside? || owner in s.used then s
        else
          var after := if MaySet(s.store, key, ttl, s.now) then Inside(key, owner, s.now + ttl * 1000)
                       else if ttl > 0 then Turned(key) else Outside;
          s.(store := Set(s.store, key, owner, ttl, s.now), used := s.used + {owner}, procs := s.procs[p := after])
      case EnterUnheard(_, key, owner, ttl) =>
        if !proc.Outside? || owner in s.used then s
        else s.(store := Set(s.store, key, owner, ttl, s.now), used := s.used + {owner})
      case Leave(_) =>
        var out := s.(procs := s.procs[p := Outside]);
        if proc.Inside? then out.(store := Release(s.store, proc.key, proc.owner, s.now)) else out
      case LeaveUnheard(_) => s.(procs := s.procs[p := Outside])
      case Crash(_) => s.(procs := s.procs[p := Outside])
  }

  function Run(s: System, actions: seq<Action>): System
    decreases |actions|
  {
    if actions == [] then s else Run(Next(s, actions[0]), actions[1..])
  }

  predicate Holds(s: System, p: nat, key: string) {
    p < |s.procs| && s.procs[p].Inside? && s.procs[p].key == key && s.now < s.procs[p].until
  }

  ghost predicate Inv(s: System) {
    && (forall p :: 0 <= p < |s.procs| && s.procs[p].Inside? ==>
          && s.procs[p].owner in s.used
          && (s.now < s.procs[p].until ==>
                s.procs[p].key in s.store && s.store[s.procs[p].key] == Entry(s.procs[p].owner, s.procs[p].until)))
    && (forall p, q :: 0 <= p < q < |s.procs| && s.procs[p].Inside? && s.procs[q].Inside? ==>
          s.procs[p].owner != s.procs[q].owner)
    && (forall key :: key in s.store ==> s.store[key].owner in s.used)
  }

  lemma NextKeeps(s: System, a: Action)
    requires Inv(s)
    ensures Inv(Next(s, a))
  {
  }

  lemma {:induction false} RunKeeps(s: System, actions: seq<Action>)
    requires Inv(s)
    ensures Inv(Run(s, actions)) && s.used <= Run(s, actions).used
    decreases |actions|
  {
    if actions != [] {
      NextKeeps(s, actions[0]);
      RunKeeps(Next(s, actions[0]), actions[1..]);
    }
  }

  predicate Empty(s: System) { s.store == map[] && forall p :: 0 <= p < |s.procs| ==> s.procs[p].Outside? }

  /** Over every run, however leases run out, processes crash and releases come late: no two
      processes hold the same key while their leases last. */
  lemma AtMostOneHolder(s: System, actions: seq<Action>, p: nat, q: nat, key: string)
    requires Empty(s) && Holds(Run(s, actions), p, key) && Holds(Run(s, actions), q, key)
    ensures p == q
  {
    RunKeeps(s, actions);
  }

  /** No step of another process takes a lease away from its holder: it ends with its time. */
  lemma OnlyTimeTakesALease(s: System, actions: seq<Action>, p: nat, key: string, a: Action)
    requires Empty(s) && Holds(Run(s, actions), p, key) && !a.Tick? && a.p != p
    ensures
      var before := Run(s, actions);
      var after := Next(before, a);
      Holds(after, p, key) && key in after.store && key in before.store && after.store[key] == before.store[key]
  {
    RunKeeps(s, actions);
    NextKeeps(Run(s, actions), a);
    hide Run;
  }

  /** A process gets the key exactly when no lease on it lasts, and a lifetime is asked for; so a lease
      left by a crash, or by a lost reply, is an obstacle for its lifetime and no longer. */
  lemma EnterIff(s: System, p: nat, key: string, owner: string, ttl: int)
    requires Inv(s) && p < |s.procs| && s.procs[p].Outside? && owner !in s.used
    ensures
      var free := key in s.store ==> s.store[key].deadline <= s.now;
      var end := Next(s, Enter(p, key, owner, ttl));
      && (Holds(end, p, key) <==> ttl > 0 && free)
      && (if ttl > 0 && free then
            && end.procs[p] == Inside(key, owner, s.now + 1000 * ttl)
            && end.store == s.store[key := Entry(owner, s.now + 1000 * ttl)]
          else end.procs[p] == (if ttl > 0 then Turned(key) else Outside) && end.store == s.store)
      && (free ==> forall q :: !Holds(s, q, key))
  {
  }

  /** A lost reply changes what the process knows, not what the store does: a lease it took unheard, or
      failed to give back, lasts its time with nobody inside. */
  lemma LostReplies(s: System, p: nat, key: string, owner: string, ttl: int)
    requires p < |s.procs|
    ensures
      var unheard := Next(s, EnterUnheard(p, key, owner, ttl));
      && unheard.store == Next(s, Enter(p, key, owner, ttl)).store && unheard.procs == s.procs
    ensures
      var kept := Next(s, LeaveUnheard(p));
      kept.store == s.store && kept.procs == s.procs[p := Outside]
  {
  }

  /** A holder that leaves frees the key at once: the next process to come gets it. */
  lemma NextGetsTheKey(s: System, p: nat, q: nat, key: string, owner: string, ttl: nat)
    requires Inv(s) && Holds(s, p, key) && q < |s.procs| && q != p && s.procs[q].Outside?
    requires owner !in s.used && ttl > 0
    ensures
      var left := Next(s, Leave(p));
      var entered := Next(left, Enter(q, key, owner, ttl));
      && key !in left.store && !Holds(entered, p, key) && Holds(entered, q, key)
      && entered.procs[q] == Inside(key, owner, s.now + 1000 * ttl)
  {
  }

  /** After a crash the key is free once the lease has run out, and not before. */
  lemma CrashFreesByTime(s: System, p: nat, q: nat, key: string, owner: string, ttl: nat, ms: nat)
    requires Inv(s) && Holds(s, p, key) && q < |s.procs| && q != p && s.procs[q].Outside?
    requires owner !in s.used && ttl > 0
    ensures
      var later := Next(Next(s, Crash(p)), Tick(ms));
      Holds(Next(later, Enter(q, key, owner, ttl)), q, key) <==> s.now + ms >= s.procs[p].until
  {
  }
}
