/** services/panels/pool.py on its objects. Each method is one stretch of code between two awaits. */
module PoolService {
  import opened Options
  import Model = PoolModel

  class Client {
    const config: Model.Config
    var closes: nat

    constructor (config: Model.Config)
      ensures this.config == config && closes == 0
    {
      this.config, closes := config, 0;
    }

    /** `aclose()` up to its own first await: from here on the client is closed. */
    method Close()
      modifies this
      ensures closes == old(closes) + 1
    {
      closes := closes + 1;
    }
  }

  class PoolEntry {
    const config: Model.Config
    const client: Client
    var borrowers: int
    var retired: bool
    ghost const key: Model.Key
    ghost const id: nat

    constructor (config: Model.Config, client: Client, ghost key: Model.Key, ghost id: nat)
      ensures this.config == config && this.client == client && this.key == key && this.id == id
      ensures borrowers == 0 && !retired
    {
      this.config, this.client, borrowers, retired := config, client, 0, false;
      this.key, this.id := key, id;
    }

    ghost function Row(): Model.Entry
      reads this, client
    {
      Model.Entry(key, config, borrowers, retired, client.closes)
    }
  }

  class ClientPool {
    var byKey: map<Model.Key, PoolEntry>
    ghost var all: seq<PoolEntry>

    constructor ()
      ensures Valid() && View() == Model.Pool([], map[])
    {
      byKey, all := map[], [];
    }

    /** Entries and clients are pairwise distinct objects, and the dictionary holds made entries. */
    ghost predicate Valid()
      reads this, all
    {
      && (forall i :: 0 <= i < |all| ==> all[i].id == i && all[i].config == all[i].client.config)
      && (forall i, j :: 0 <= i < j < |all| ==> all[i].client != all[j].client)
      && (forall k :: k in byKey ==> byKey[k].id < |all| && all[byKey[k].id] == byKey[k])
    }

    ghost predicate Owns(e: PoolEntry)
      reads this
    {
      e.id < |all| && all[e.id] == e
    }

    ghost function Clients(): set<Client>
      reads this
    {
      set i | 0 <= i < |all| :: all[i].client
    }

    ghost function View(): Model.Pool
      reads this, all, Clients()
    {
      Model.Pool(seq(|all|, i requires 0 <= i < |all| reads this, all, Clients() => all[i].Row()),
                 map k | k in byKey :: byKey[k].id)
    }

    /** The three in-place updates of an entry, and what each does to the view. */
    method AddBorrowers(entry: PoolEntry, delta: int)
      requires Valid() && Owns(entry)
      modifies entry
      ensures Valid() && entry.borrowers == old(entry.borrowers) + delta && entry.retired == old(entry.retired)
      ensures View() == old(View()).(entries := old(View()).entries[
                entry.id := old(entry.Row()).(borrowers := old(entry.borrowers) + delta)])
    {
      entry.borrowers := entry.borrowers + delta;
      assert View().entries == old(View()).entries[entry.id := entry.Row()];
    }

    method Retire(entry: PoolEntry)
      requires Valid() && Owns(entry)
      modifies entry
      ensures Valid() && entry.retired && entry.borrowers == old(entry.borrowers)
      ensures View() == old(View()).(entries := old(View()).entries[entry.id := old(entry.Row()).(retired := true)])
    {
      entry.retired := true;
      assert View().entries == old(View()).entries[entry.id := entry.Row()];
    }

    method CloseClient(entry: PoolEntry)
      requires Valid() && Owns(entry)
      modifies entry.client
      ensures Valid()
      ensures View() == old(View()).(entries := old(View()).entries[entry.id := Model.Close(old(entry.Row()))])
    {
      entry.client.Close();
      assert View().entries == old(View()).entries[entry.id := entry.Row()];
    }

    method Forget(key: Model.Key)
      requires Valid()
      modifies `byKey
      ensures Valid() && byKey == old(byKey) - {key}
      ensures View() == old(View()).(byKey := old(View()).byKey - {key})
    {
      byKey := byKey - {key};
      assert View().entries == old(View()).entries;
      assert View().byKey == old(View()).byKey - {key};
    }

    /** `PoolEntry(config, factory(config))`, stored under the key. */
    method Insert(key: Model.Key, config: Model.Config) returns (entry: PoolEntry)
      requires Valid()
      modifies this
      ensures Valid() && Owns(entry) && entry.id == |old(all)| && all == old(all) + [entry]
      ensures fresh(entry) && fresh(entry.client) && entry.client.config == config
      ensures entry.Row() == Model.Entry(key, config, 0, false, 0)
      ensures View() == Model.Pool(old(View()).entries + [entry.Row()], old(View()).byKey[key := |old(all)|])
    {
      var client := new Client(config);
      entry := new PoolEntry(config, client, key, |all|);
      byKey := byKey[key := entry];
      all := all + [entry];
      assert View().entries == old(View()).entries + [entry.Row()];
      assert View().byKey == old(View()).byKey[key := |old(all)|];
    }

    method Evict(key: Model.Key) returns (closing: bool)
      requires Valid()
      modifies this, all, Clients()
      ensures Valid() && all == old(all)
      ensures (View(), closing) == Model.Evict(old(View()), key)
      ensures byKey == old(byKey) - {key}
      ensures key in old(byKey) ==> old(byKey[key]).retired
    {
      if key !in byKey {
        return false;
      }
      var entry := byKey[key];
      Forget(key);
      Retire(entry);
      closing := entry.borrowers == 0;
      if closing {
        CloseClient(entry);
      }
      assert View().entries == Model.Evict(old(View()), key).0.entries;
    }

    /** `factoryOk == false`: the factory raised, and so does `borrow`. */
    method BorrowEnter(key: Model.Key, config: Model.Config, factoryOk: bool)
      returns (entry: PoolEntry?, closingOld: bool)
      requires Valid()
      modifies this, all, Clients()
      ensures Valid() && old(all) <= all
      ensures entry == null <==> !factoryOk && !Model.Reusable(old(View()), key, config)
      ensures entry == null ==> View() == Model.EnterRaising(old(View()), key, config)
      ensures entry != null ==>
                Owns(entry) && entry.client.config == config
                && Model.Entered(View(), entry.id, closingOld) == Model.Enter(old(View()), key, config)
    {
      closingOld := false;
      if key in byKey && byKey[key].config == config {
        entry := byKey[key];
        AddBorrowers(entry, 1);
        return;
      }
      var previous := if key in byKey then Some(byKey[key]) else None;
      if previous.Some? {
        Retire(previous.value);
      }
      if !factoryOk {
        entry := null;
        return;
      }
      entry, closingOld := Replace(key, config, previous);
    }

    method Replace(key: Model.Key, config: Model.Config, previous: Option<PoolEntry>)
      returns (entry: PoolEntry, closingOld: bool)
      requires Valid() && (previous.Some? ==> Owns(previous.value))
      modifies this, all, Clients()
      ensures Valid() && Owns(entry) && all == old(all) + [entry] && entry.id == |old(all)|
      ensures entry.client.config == config
      ensures closingOld == (previous.Some? && old(previous.value.borrowers) == 0)
      ensures
        var before := old(View()).entries;
        var closed := if closingOld then before[previous.value.id := Model.Close(before[previous.value.id])]
                      else before;
        View() == Model.Pool(closed + [Model.Entry(key, config, 1, false, 0)], old(View()).byKey[key := |before|])
    {
      entry := Insert(key, config);
      AddBorrowers(entry, 1);
      closingOld := previous.Some? && previous.value.borrowers == 0;
      if closingOld {
        CloseClient(previous.value);
      }
    }

    method ExceptClause(key: Model.Key, entry: PoolEntry)
      requires Valid() && Owns(entry)
      modifies this, entry
      ensures Valid() && all == old(all)
      ensures View() == Model.Discard(old(View()), key, entry.id)
      ensures entry.retired && (key in byKey ==> byKey[key] != entry)
      ensures forall k :: k in byKey ==> k in old(byKey) && byKey[k] == old(byKey[k])
      ensures forall k :: k in old(byKey) && (k != key || old(byKey[k]) != entry) ==> k in byKey
    {
      if key in byKey && byKey[key] == entry {
        Forget(key);
      }
      Retire(entry);
    }

    method FinallyClause(entry: PoolEntry) returns (closing: bool)
      requires Valid() && Owns(entry)
      modifies entry, entry.client
      ensures Valid() && all == old(all)
      ensures (View(), closing) == Model.Release(old(View()), entry.id)
    {
      AddBorrowers(entry, -1);
      closing := entry.retired && entry.borrowers == 0;
      if closing {
        CloseClient(entry);
      }
      assert View().entries == Model.Release(old(View()), entry.id).0.entries;
    }
  }
}
