/** Shared panel clients (services/panels/pool.py) under cooperative scheduling: a task runs
    without interruption from one `await` to the next, so the atomic steps below are exactly the
    stretches of code between awaits. Every `factory(config)` call makes one client, owned by one
    entry; an entry's index is its identity. */
module PoolModel {

  type Key = string
  type Config = string

  /** `closes` counts the calls of `aclose()` on the entry's client, from the moment they start. */
  datatype Entry = Entry(key: Key, config: Config, borrowers: int, retired: bool, closes: nat)
  datatype Pool = Pool(entries: seq<Entry>, byKey: map<Key, nat>)

  predicate WellFormed(p: Pool) { forall k :: k in p.byKey ==> p.byKey[k] < |p.entries| }

  predicate Reusable(p: Pool, key: Key, config: Config)
    requires WellFormed(p)
  {
    key in p.byKey && p.entries[p.byKey[key]].config == config
  }

  /** The old entry under the key is marked before the factory is called. */
  function RetireOld(p: Pool, key: Key): seq<Entry>
    requires WellFormed(p)
  {
    if key in p.byKey then p.entries[p.byKey[key] := p.entries[p.byKey[key]].(retired := true)] else p.entries
  }

  function Close(e: Entry): Entry { e.(closes := e.closes + 1) }

  datatype Entered = Entered(pool: Pool, entry: nat, closingOld: bool)

  /** `borrow` up to its first await: look up, replace if the configuration changed, count the
      borrower, and start closing an idle old client. */
  function Enter(p: Pool, key: Key, config: Config): (r: Entered)
    requires WellFormed(p)
    ensures WellFormed(r.pool) && r.entry < |r.pool.entries|
  {
    if Reusable(p, key, config) then
      var i := p.byKey[key];
      Entered(p.(entries := p.entries[i := p.entries[i].(borrowers := p.entries[i].borrowers + 1)]), i, false)
    else
      var entries := RetireOld(p, key);
      var idle := key in p.byKey && p.entries[p.byKey[key]].borrowers == 0;
      var closed := if idle then entries[p.byKey[key] := Close(entries[p.byKey[key]])] else entries;
      Entered(Pool(closed + [Entry(key, config, 1, false, 0)], p.byKey[key := |p.entries|]), |p.entries|, idle)
  }

  /** The same stretch of code when the factory raises. */
  function EnterRaising(p: Pool, key: Key, config: Config): (r: Pool)
    requires WellFormed(p)
    ensures WellFormed(r)
  {
    if Reusable(p, key, config) then p else p.(entries := RetireOld(p, key))
  }

  /** The `except Exception` clause. */
  function Discard(p: Pool, key: Key, i: nat): (r: Pool)
    requires WellFormed(p) && i < |p.entries|
    ensures WellFormed(r) && |r.entries| == |p.entries|
  {
    Pool(p.entries[i := p.entries[i].(retired := true)],
         if key in p.byKey && p.byKey[key] == i then p.byKey - {key} else p.byKey)
  }

  /** The `finally` clause; the Boolean says whether it starts closing the client. */
  function Release(p: Pool, i: nat): (r: (Pool, bool))
    requires WellFormed(p) && i < |p.entries|
    ensures WellFormed(r.0)
  {
    var e := p.entries[i].(borrowers := p.entries[i].borrowers - 1);
    var last := e.retired && e.borrowers == 0;
    (p.(entries := p.entries[i := if last then Close(e) else e]), last)
  }

  function Evict(p: Pool, key: Key): (r: (Pool, bool))
    requires WellFormed(p)
    ensures WellFormed(r.0)
  {
    if key !in p.byKey then (p, false)
    else
      var i := p.byKey[key];
      var e := p.entries[i].(retired := true);
      var idle := e.borrowers == 0;
      (Pool(p.entries[i := if idle then Close(e) else e], p.byKey - {key}), idle)
  }
}
