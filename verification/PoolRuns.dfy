/** Any number of tasks borrowing, failing, being cancelled and evicting, in any interleaving. */
module PoolRuns {
  import opened PoolModel

  datatype Task =
    | Idle
    | ClosingOld(key: Key, config: Config, entry: nat)  // suspended in `await old.client.aclose()`
    | Using(key: Key, config: Config, entry: nat)       // the body of `async with` runs on the client
    | ClosingLast                                       // suspended in the last `aclose()` of borrow or evict

  datatype System = System(pool: Pool, tasks: seq<Task>)

  datatype Action =
    | Borrow(t: nat, key: Key, config: Config)
    | FactoryRaises(t: nat, key: Key, config: Config)
    | OldClosed(t: nat)                                 // the old client finished closing
    | Leave(t: nat)                                     // the body ended, or the task was cancelled
    | Fail(t: nat)                                      // the body, or closing the old client, raised
    | EvictKey(t: nat, key: Key)
    | LastClosed(t: nat)

  function Resume(s: System, t: nat, pool: Pool, task: Task): System
    requires t < |s.tasks|
  {
    System(pool, s.tasks[t := task])
  }

  predicate Holds(task: Task, i: nat) { (task.Using? || task.ClosingOld?) && task.entry == i }

  /** Tasks only ever point at entries that exist. */
  predicate TasksInRange(s: System) {
    forall t :: 0 <= t < |s.tasks| ==>
      (s.tasks[t].Using? || s.tasks[t].ClosingOld? ==> s.tasks[t].entry < |s.pool.entries|)
  }

  /** An action that is not enabled changes nothing. */
  function Next(s: System, a: Action): System
    requires WellFormed(s.pool) && TasksInRange(s)
  {
    if a.t >= |s.tasks| then s
    else
      var task := s.tasks[a.t];
      match a
      case Borrow(t, key, config) =>
        if !task.Idle? then s
        else
          var r := Enter(s.pool, key, config);
          Resume(s, t, r.pool, if r.closingOld then ClosingOld(key, config, r.entry) else Using(key, config, r.entry))
      case FactoryRaises(t, key, config) =>
        if !task.Idle? then s else s.(pool := EnterRaising(s.pool, key, config))
      case OldClosed(t) =>
        if task.ClosingOld? then Resume(s, t, s.pool, Using(task.key, task.config, task.entry)) else s
      case Leave(t) =>
        if task.Using? || task.ClosingOld? then
          var (pool, closing) := Release(s.pool, task.entry);
          Resume(s, t, pool, if closing then ClosingLast else Idle)
        else s
      case Fail(t) =>
        if task.Using? || task.ClosingOld? then
          var (pool, closing) := Release(Discard(s.pool, task.key, task.entry), task.entry);
          Resume(s, t, pool, if closing then ClosingLast else Idle)
        else s
      case EvictKey(t, key) =>
        if !task.Idle? then s
        else
          var (pool, closing) := Evict(s.pool, key);
          Resume(s, t, pool, if closing then ClosingLast else Idle)
      case LastClosed(t) =>
        if task.ClosingLast? then Resume(s, t, s.pool, Idle) else s
  }

  function Holders(tasks: seq<Task>, i: nat): nat {
    if tasks == [] then 0
    else Holders(tasks[..|tasks| - 1], i) + (if Holds(tasks[|tasks| - 1], i) then 1 else 0)
  }

  /** The counters and flags of the entries mean what the code takes them to mean. */
  ghost predicate Inv(s: System) {
    && WellFormed(s.pool) && TasksInRange(s)
    && (forall k :: k in s.pool.byKey ==>
          s.pool.entries[s.pool.byKey[k]].key == k && !s.pool.entries[s.pool.byKey[k]].retired)
    && (forall i :: 0 <= i < |s.pool.entries| ==>
          var e := s.pool.entries[i];
          && (!e.retired ==> e.key in s.pool.byKey && s.pool.byKey[e.key] == i)
          && e.borrowers == Holders(s.tasks, i)
          && e.closes == (if e.retired && e.borrowers == 0 then 1 else 0))
    && (forall t :: 0 <= t < |s.tasks| ==>
          (s.tasks[t].Using? || s.tasks[t].ClosingOld? ==>
             s.pool.entries[s.tasks[t].entry].key == s.tasks[t].key
             && s.pool.entries[s.tasks[t].entry].config == s.tasks[t].config))
  }

  lemma {:induction false} HoldersUpdate(tasks: seq<Task>, t: nat, task: Task, i: nat)
    requires t < |tasks|
    ensures Holders(tasks[t := task], i) + (if Holds(tasks[t], i) then 1 else 0)
            == Holders(tasks, i) + (if Holds(task, i) then 1 else 0)
  {
    var last := |tasks| - 1;
    if t == last {
      assert tasks[t := task][..last] == tasks[..last];
    } else {
      assert tasks[t := task][..last] == tasks[..last][t := task];
      HoldersUpdate(tasks[..last], t, task, i);
    }
  }

  lemma {:induction false} HoldersOutOfRange(tasks: seq<Task>, i: nat)
    requires forall t :: 0 <= t < |tasks| ==> !Holds(tasks[t], i)
    ensures Holders(tasks, i) == 0
  {
    if tasks != [] {
      HoldersOutOfRange(tasks[..|tasks| - 1], i);
    }
  }

  lemma {:induction false} HolderExists(tasks: seq<Task>, i: nat) returns (t: nat)
    requires Holders(tasks, i) > 0
    ensures t < |tasks| && Holds(tasks[t], i)
  {
    t := |tasks| - 1;
    if !Holds(tasks[t], i) {
      t := HolderExists(tasks[..t], i);
    }
  }

  lemma {:induction false} HolderCounts(tasks: seq<Task>, t: nat, i: nat)
    requires t < |tasks| && Holds(tasks[t], i)
    ensures Holders(tasks, i) > 0
  {
    if t < |tasks| - 1 {
      HolderCounts(tasks[..|tasks| - 1], t, i);
    }
  }

  /** All counts after one task moved. */
  lemma HoldersAfter(s: System, t: nat, task: Task)
    requires t < |s.tasks|
    ensures forall i: nat {:trigger Holders(s.tasks[t := task], i)} ::
              Holders(s.tasks[t := task], i)
              == Holders(s.tasks, i) - (if Holds(s.tasks[t], i) then 1 else 0) + (if Holds(task, i) then 1 else 0)
  {
    forall i: nat
      ensures Holders(s.tasks[t := task], i)
              == Holders(s.tasks, i) - (if Holds(s.tasks[t], i) then 1 else 0) + (if Holds(task, i) then 1 else 0)
    {
      HoldersUpdate(s.tasks, t, task, i);
    }
  }

  // ── One step ──────────────────────────────────────────────────────────────────────────────

  lemma ReuseKeeps(s: System, t: nat, key: Key, config: Config)
    requires Inv(s) && t < |s.tasks| && s.tasks[t].Idle? && Reusable(s.pool, key, config)
    ensures Inv(Next(s, Borrow(t, key, config)))
  {
    hide Holders;
    HoldersAfter(s, t, Using(key, config, s.pool.byKey[key]));
  }

  /** What a replacement does to the pool, entry by entry. */
  ghost predicate Replaced(p: Pool, p1: Pool, key: Key, config: Config)
    requires WellFormed(p)
  {
    var n := |p.entries|;
    && |p1.entries| == n + 1 && p1.byKey == p.byKey[key := n]
    && p1.entries[n] == Entry(key, config, 1, false, 0)
    && forall i :: 0 <= i < n ==>
         var e := p.entries[i];
         p1.entries[i] ==
           if key in p.byKey && p.byKey[key] == i then
             e.(retired := true, closes := if e.borrowers == 0 then e.closes + 1 else e.closes)
           else e
  }

  lemma EnterReplaces(p: Pool, key: Key, config: Config)
    requires WellFormed(p) && !Reusable(p, key, config)
    ensures Replaced(p, Enter(p, key, config).pool, key, config) && Enter(p, key, config).entry == |p.entries|
  {
  }

  lemma InvAfterReplacing(s: System, t: nat, p1: Pool, key: Key, config: Config, task: Task)
    requires Inv(s) && t < |s.tasks| && s.tasks[t].Idle? && Replaced(s.pool, p1, key, config)
    requires task == ClosingOld(key, config, |s.pool.entries|) || task == Using(key, config, |s.pool.entries|)
    ensures Inv(Resume(s, t, p1, task))
  {
    hide Holders;
    HoldersAfter(s, t, task);
    HoldersOutOfRange(s.tasks, |s.pool.entries|);
  }

  lemma ReplaceKeeps(s: System, t: nat, key: Key, config: Config)
    requires Inv(s) && t < |s.tasks| && s.tasks[t].Idle? && !Reusable(s.pool, key, config)
    ensures Inv(Next(s, Borrow(t, key, config)))
  {
    var r := Enter(s.pool, key, config);
    var task := if r.closingOld then ClosingOld(key, config, r.entry) else Using(key, config, r.entry);
    EnterReplaces(s.pool, key, config);
    InvAfterReplacing(s, t, r.pool, key, config, task);
    var s1 := Next(s, Borrow(t, key, config));
    assert s1 == Resume(s, t, r.pool, task);
  }

  lemma ReleaseKeeps(s: System, t: nat)
    requires Inv(s) && t < |s.tasks| && (s.tasks[t].Using? || s.tasks[t].ClosingOld?)
    ensures Inv(Next(s, Leave(t)))
  {
    hide Holders;
    HoldersAfter(s, t, Idle);
    HoldersAfter(s, t, ClosingLast);
    HolderCounts(s.tasks, t, s.tasks[t].entry);
  }

  lemma FailKeeps(s: System, t: nat)
    requires Inv(s) && t < |s.tasks| && (s.tasks[t].Using? || s.tasks[t].ClosingOld?)
    ensures Inv(Next(s, Fail(t)))
  {
    hide Holders;
    HoldersAfter(s, t, Idle);
    HoldersAfter(s, t, ClosingLast);
    HolderCounts(s.tasks, t, s.tasks[t].entry);
  }

  lemma OthersKeep(s: System, a: Action)
    requires Inv(s) && a.t < |s.tasks| && (a.OldClosed? || a.EvictKey? || a.LastClosed?)
    ensures Inv(Next(s, a))
  {
    hide Holders;
    var task := s.tasks[a.t];
    HoldersAfter(s, a.t, Idle);
    HoldersAfter(s, a.t, ClosingLast);
    if task.ClosingOld? {
      HoldersAfter(s, a.t, Using(task.key, task.config, task.entry));
    }
  }

  /** The factory raised while the key held an entry of another configuration: that entry is
      retired and still in the pool. */
  predicate LeavesRetiredEntry(s: System, a: Action)
    requires WellFormed(s.pool)
  {
    && a.FactoryRaises? && a.t < |s.tasks| && s.tasks[a.t].Idle?
    && a.key in s.pool.byKey && s.pool.entries[s.pool.byKey[a.key]].config != a.config
  }

  /** A step keeps the invariant if and only if it is not that one. */
  lemma StepKeepsIff(s: System, a: Action)
    requires Inv(s)
    ensures Inv(Next(s, a)) <==> !LeavesRetiredEntry(s, a)
  {
    if a.t < |s.tasks| {
      var task := s.tasks[a.t];
      match a
      case Borrow(t, key, config) =>
        if task.Idle? {
          if Reusable(s.pool, key, config) { ReuseKeeps(s, t, key, config); } else { ReplaceKeeps(s, t, key, config); }
        }
      case FactoryRaises(t, key, config) =>
        if LeavesRetiredEntry(s, a) {
          assert Next(s, a).pool.entries[s.pool.byKey[key]].retired;
        }
      case Leave(t) =>
        if task.Using? || task.ClosingOld? { ReleaseKeeps(s, t); }
      case Fail(t) =>
        if task.Using? || task.ClosingOld? { FailKeeps(s, t); }
      case OldClosed(t) => OthersKeep(s, a);
      case EvictKey(t, key) => OthersKeep(s, a);
      case LastClosed(t) => OthersKeep(s, a);
    }
  }

  // ── Whole runs ────────────────────────────────────────────────────────────────────────────

  lemma NextWellFormed(s: System, a: Action)
    requires WellFormed(s.pool) && TasksInRange(s)
    ensures WellFormed(Next(s, a).pool) && TasksInRange(Next(s, a))
  {
  }

  function Run(s: System, actions: seq<Action>): (r: System)
    requires WellFormed(s.pool) && TasksInRange(s)
    ensures WellFormed(r.pool) && TasksInRange(r)
    decreases |actions|
  {
    if actions == [] then s
    else
      NextWellFormed(s, actions[0]);
      Run(Next(s, actions[0]), actions[1..])
  }

  function Start(n: nat): System { System(Pool([], map[]), seq(n, _ => Idle)) }

  ghost predicate Safe(s: System) {
    && WellFormed(s.pool) && TasksInRange(s)
    && (forall t :: 0 <= t < |s.tasks| && s.tasks[t].Using? ==>
          s.pool.entries[s.tasks[t].entry].closes == 0
          && s.pool.entries[s.tasks[t].entry].config == s.tasks[t].config)
    && (forall k :: k in s.pool.byKey ==>
          !s.pool.entries[s.pool.byKey[k]].retired && s.pool.entries[s.pool.byKey[k]].closes == 0)
  }

  /** Every client made so far is in the pool and open, or open in some task's hands, or closed
      once and in nobody's. */
  ghost predicate NoLeak(s: System) {
    && WellFormed(s.pool)
    && forall i :: 0 <= i < |s.pool.entries| ==>
         var e := s.pool.entries[i];
         if !e.retired then e.key in s.pool.byKey && s.pool.byKey[e.key] == i && e.closes == 0
         else if e.borrowers > 0 then e.closes == 0 && exists t :: 0 <= t < |s.tasks| && Holds(s.tasks[t], i)
         else e.closes == 1 && forall t :: 0 <= t < |s.tasks| ==> !Holds(s.tasks[t], i)
  }

  lemma InvIsSafe(s: System)
    requires Inv(s)
    ensures Safe(s) && NoLeak(s)
  {
    forall t | 0 <= t < |s.tasks| && (s.tasks[t].Using? || s.tasks[t].ClosingOld?)
      ensures s.pool.entries[s.tasks[t].entry].borrowers > 0
    {
      HolderCounts(s.tasks, t, s.tasks[t].entry);
    }
    forall i | 0 <= i < |s.pool.entries| && s.pool.entries[i].borrowers > 0
      ensures exists t :: 0 <= t < |s.tasks| && Holds(s.tasks[t], i)
    {
      var t := HolderExists(s.tasks, i);
    }
  }

  ghost predicate FactoryHarmless(s: System, actions: seq<Action>)
    requires WellFormed(s.pool) && TasksInRange(s)
    decreases |actions|
  {
    actions != [] ==>
      && !LeavesRetiredEntry(s, actions[0])
      && (NextWellFormed(s, actions[0]); FactoryHarmless(Next(s, actions[0]), actions[1..]))
  }

  lemma {:induction false} RunKeeps(s: System, actions: seq<Action>)
    requires Inv(s) && FactoryHarmless(s, actions)
    ensures Inv(Run(s, actions))
    decreases |actions|
  {
    if actions != [] {
      StepKeepsIff(s, actions[0]);
      RunKeeps(Next(s, actions[0]), actions[1..]);
    }
  }

  lemma {:induction false} NoRaiseIsHarmless(s: System, actions: seq<Action>)
    requires WellFormed(s.pool) && TasksInRange(s)
    requires forall i :: 0 <= i < |actions| ==> !actions[i].FactoryRaises?
    ensures FactoryHarmless(s, actions)
    decreases |actions|
  {
    if actions != [] {
      NextWellFormed(s, actions[0]);
      NoRaiseIsHarmless(Next(s, actions[0]), actions[1..]);
    }
  }

  /** Safety and no leaks, for every number of tasks and every interleaving in which a raising
      factory never replaces an entry, in particular when it never raises. */
  lemma PoolIsSafe(n: nat, actions: seq<Action>)
    requires FactoryHarmless(Start(n), actions)
    ensures Safe(Run(Start(n), actions)) && NoLeak(Run(Start(n), actions))
  {
    var s := Start(n);
    assert Inv(s);
    RunKeeps(s, actions);
    InvIsSafe(Run(s, actions));
  }

  /** A client is closed only in the step in which its last borrower leaves or its idle entry is
      retired, once, and it stays closed. */
  lemma ClosedWhenLastLeaves(s: System, a: Action, i: nat)
    requires Inv(s) && !LeavesRetiredEntry(s, a) && i < |s.pool.entries|
    ensures
      var s1 := Next(s, a);
      && i < |s1.pool.entries|
      && var e, e1 := s.pool.entries[i], s1.pool.entries[i];
         && (e.retired ==> e1.retired && e1.borrowers <= e.borrowers)
         && (e1.closes != e.closes <==> e1.retired && e1.borrowers == 0 && !(e.retired && e.borrowers == 0))
         && e.closes <= e1.closes <= 1
  {
    hide Holders;
    StepKeepsIff(s, a);
  }

  /** After a failure the entry is retired and under no key, whoever else still uses it. */
  lemma FailedClientLeaves(s: System, t: nat)
    requires Inv(s) && t < |s.tasks| && (s.tasks[t].Using? || s.tasks[t].ClosingOld?)
    ensures
      var i, s1 := s.tasks[t].entry, Next(s, Fail(t));
      && i < |s1.pool.entries| && s1.pool.entries[i].retired
      && forall k :: k in s1.pool.byKey ==> s1.pool.byKey[k] != i
  {
    FailKeeps(s, t);
  }

  /** A retired entry is never handed out again: in every run, whoever holds it held it before. */
  lemma {:induction false} RetiredIsNotHandedOut(s: System, actions: seq<Action>, i: nat)
    requires Inv(s) && FactoryHarmless(s, actions) && i < |s.pool.entries| && s.pool.entries[i].retired
    ensures
      var end := Run(s, actions);
      && |end.tasks| == |s.tasks| && i < |end.pool.entries| && end.pool.entries[i].retired
      && (forall k :: k in end.pool.byKey ==> end.pool.byKey[k] != i)
      && (forall t :: 0 <= t < |s.tasks| && Holds(end.tasks[t], i) ==> Holds(s.tasks[t], i))
    decreases |actions|
  {
    if actions != [] {
      StepKeepsIff(s, actions[0]);
      StaysRetired(s, actions[0], i);
      hide Inv, Next, Holders;
      RetiredIsNotHandedOut(Next(s, actions[0]), actions[1..], i);
    }
  }

  lemma StaysRetired(s: System, a: Action, i: nat)
    requires Inv(s) && i < |s.pool.entries| && s.pool.entries[i].retired
    ensures
      var s1 := Next(s, a);
      && |s1.tasks| == |s.tasks| && i < |s1.pool.entries| && s1.pool.entries[i].retired
      && (forall t :: 0 <= t < |s.tasks| && Holds(s1.tasks[t], i) ==> Holds(s.tasks[t], i))
  {
    hide Holders;
  }

  /** An evicted key has no entry, and the entry it had is retired, closed at once when nobody uses it. */
  lemma EvictedKeyLeaves(s: System, t: nat, key: Key)
    requires Inv(s) && t < |s.tasks| && s.tasks[t].Idle? && key in s.pool.byKey
    ensures
      var i, s1 := s.pool.byKey[key], Next(s, EvictKey(t, key));
      && key !in s1.pool.byKey && s1.pool.byKey == s.pool.byKey - {key}
      && s1.pool.entries[i].retired && s1.pool.entries[i].closes == (if s.pool.entries[i].borrowers == 0 then 1 else 0)
  {
    hide Holders;
  }

  /** Two borrowers of one key and configuration share the client; another configuration replaces it. */
  lemma BorrowersShare(s: System, t: nat, u: nat, key: Key, config: Config, other: Config)
    requires Inv(s) && t < |s.tasks| && u < |s.tasks| && t != u && s.tasks[t].Idle? && s.tasks[u].Idle?
    ensures
      var s1 := Next(s, Borrow(t, key, config));
      var s2 := Next(s1, Borrow(u, key, other));
      && (s1.tasks[t].Using? || s1.tasks[t].ClosingOld?) && s2.tasks[t] == s1.tasks[t]
      && (s2.tasks[u].Using? || s2.tasks[u].ClosingOld?)
      && (s2.tasks[u].entry == s1.tasks[t].entry <==> other == config)
      && (other == config ==> s2.tasks[u].Using? && s2.pool.byKey == s1.pool.byKey)
  {
    hide Holders;
  }

  function OneEntry(borrowers: int, retired: bool, closes: nat, task: Task): System {
    System(Pool([Entry("panel", "v1", borrowers, retired, closes)], map["panel" := 0]), [task])
  }

  const USING: Task := Using("panel", "v1", 0)

  /** Why the condition is there: a factory that raises leaves a retired entry behind ... */
  lemma RaisingFactoryLeavesRetiredEntry()
    ensures Run(Start(1), [Borrow(0, "panel", "v1"), Leave(0), FactoryRaises(0, "panel", "v2")])
            == OneEntry(0, true, 0, Idle)
  {
    var s0, s1 := Start(1), OneEntry(1, false, 0, USING);
    assert s0.tasks[0 := USING] == s1.tasks;
    assert Next(s0, Borrow(0, "panel", "v1")) == s1;
    RunAlong([Borrow(0, "panel", "v1"), Leave(0), FactoryRaises(0, "panel", "v2")],
             [s0, s1, OneEntry(0, false, 0, Idle), OneEntry(0, true, 0, Idle)]);
  }

  /** ... whose client is closed by the next borrower and handed to the one after. */
  lemma RetiredEntryHandsOutClosedClient()
    ensures
      var end := Run(OneEntry(0, true, 0, Idle),
                     [Borrow(0, "panel", "v1"), Leave(0), LastClosed(0), Borrow(0, "panel", "v1")]);
      end == OneEntry(1, true, 1, USING) && !Safe(end)
  {
    RunAlong([Borrow(0, "panel", "v1"), Leave(0), LastClosed(0), Borrow(0, "panel", "v1")],
             [OneEntry(0, true, 0, Idle), OneEntry(1, true, 0, USING), OneEntry(0, true, 1, ClosingLast),
              OneEntry(0, true, 1, Idle), OneEntry(1, true, 1, USING)]);
  }

  lemma {:induction false} RunAlong(actions: seq<Action>, states: seq<System>)
    requires |states| == |actions| + 1
    requires forall i :: 0 <= i < |states| ==> WellFormed(states[i].pool) && TasksInRange(states[i])
    requires forall i :: 0 <= i < |actions| ==> Next(states[i], actions[i]) == states[i + 1]
    ensures Run(states[0], actions) == states[|actions|]
    decreases |actions|
  {
    if actions != [] {
      RunAlong(actions[1..], states[1..]);
    }
  }
}
