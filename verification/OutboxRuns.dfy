/** What every run of renewals, workers, revocations and usage syncs keeps. */
module OutboxRuns {
  import opened Options
  import opened Renewals
  import opened Outbox

  // ── The invariant ─────────────────────────────────────────────────────────────────────────

  predicate HoldsLock(task: Task) { task.Renewing? || task.Delivering? || task.Pushed? || task.Failing? }

  ghost predicate LockIsHeld(s: System) {
    && (s.lock.Some? ==> s.lock.value < |s.tasks|)
    && (forall t :: 0 <= t < |s.tasks| ==> (HoldsLock(s.tasks[t]) <==> s.lock == Some(t)))
  }

  /** Nobody works on a row other than the committed one, except readers who will notice. */
  ghost predicate TasksAreCurrent(s: System) {
    forall t :: 0 <= t < |s.tasks| ==>
      && (s.tasks[t].Renewing? ==> s.tasks[t].result == Apply(s.row, s.tasks[t].r, s.tasks[t].at))
      && (s.tasks[t].Delivering? || s.tasks[t].Pushed? || s.tasks[t].Failing? ==> s.row.pending)
      && (s.tasks[t].Delivering? || s.tasks[t].Pushed? ==> s.tasks[t].row == s.row)
      && (s.tasks[t].Pushed? ==> s.accepted)
      && (s.tasks[t].Syncing? ==>
            !s.tasks[t].seen.pending && s.tasks[t].seen.version <= s.row.version
            && (s.tasks[t].seen.version == s.row.version ==> s.tasks[t].seen == s.row))
  }

  /** Every renewal of the log was applied, not refused, where it stands. */
  ghost predicate Genuine(row0: Sub, log: seq<Commit>) {
    forall i :: 0 <= i < |log| && log[i].Renewed? ==> Apply(Replay(row0, log[..i]), log[i].r, log[i].at).Some?
  }

  ghost predicate History(row0: Sub, s: System) { s.row == Replay(row0, s.log) && Genuine(row0, s.log) }

  /** The panel's limits, and those a usage sync may still write, are of committed rows. */
  ghost predicate PanelIsCommitted(row0: Sub, s: System) {
    && s.quotaFrom <= |s.log| && s.panel.quota == Replay(row0, s.log[..s.quotaFrom]).volume
    && (s.expiryFrom.Some? ==>
          s.expiryFrom.value <= |s.log| && s.panel.expiryMs == ExpiryMs(Replay(row0, s.log[..s.expiryFrom.value])))
    && (forall t :: 0 <= t < |s.tasks| && s.tasks[t].Syncing? ==>
          s.tasks[t].from <= |s.log| && s.tasks[t].seen == Replay(row0, s.log[..s.tasks[t].from]))
  }

  predicate Agrees(s: System) { Push(s.panel, s.row) == s.panel }

  ghost predicate PanelAgrees(s: System) { !s.overwritten && (!s.row.pending || s.accepted) ==> Agrees(s) }

  /** A cut-off is an expiry that is over; times are after the first millisecond of the epoch. */
  predicate CutOffIsOver(s: System) {
    s.clock >= 1000 && (s.overwritten ==> 0 < s.panel.expiryMs <= s.clock / 1000)
  }

  ghost predicate Inv(row0: Sub, s: System) {
    && LockIsHeld(s) && TasksAreCurrent(s) && History(row0, s) && PanelIsCommitted(row0, s) && PanelAgrees(s)
    && CutOffIsOver(s)
  }

  // ── One step ──────────────────────────────────────────────────────────────────────────────

  /** Steps that commit nothing and leave the panel alone. */
  lemma QuietStep(row0: Sub, s: System, s1: System)
    requires Inv(row0, s)
    requires s1.row == s.row && s1.log == s.log && s1.panel == s.panel && s1.quotaFrom == s.quotaFrom
    requires s1.expiryFrom == s.expiryFrom && s1.accepted == s.accepted && s1.overwritten == s.overwritten
    requires s1.clock >= s.clock
    requires LockIsHeld(s1) && TasksAreCurrent(s1)
    requires |s1.tasks| == |s.tasks|
    requires forall t :: 0 <= t < |s.tasks| && s1.tasks[t].Syncing? ==>
               s1.tasks[t] == s.tasks[t] || s1.tasks[t] == Syncing(s.row, |s.log|)
    ensures Inv(row0, s1)
  {
    assert s.log[..|s.log|] == s.log;
  }

  lemma LogGrows(row0: Sub, log: seq<Commit>, c: Commit)
    requires Genuine(row0, log) && (c.Renewed? ==> Apply(Replay(row0, log), c.r, c.at).Some?)
    ensures Replay(row0, log + [c]) == Replay1(Replay(row0, log), c)
    ensures Genuine(row0, log + [c])
    ensures forall k :: 0 <= k <= |log| ==> (log + [c])[..k] == log[..k]
  {
    assert (log + [c])[..|log|] == log;
    assert forall k :: 0 <= k <= |log| ==> (log + [c])[..k] == log[..k];
  }

  /** A commit is harmless when it is made by the lock holder, or while nobody holds the lock. */
  ghost predicate MayCommit(s: System, t: nat, c: Commit) {
    && t < |s.tasks| && (s.lock == Some(t) || s.lock.None?)
    && match c
       case Renewed(r, at) => Apply(s.row, r, at).Some?
       case Revoked => true
       case UsageSynced(used, status) => !s.row.pending && SyncMayChange(s.row, used, s.clock, status)
       case DeliveryDone(at) => s.row.pending && s.accepted
       case DeliveryFailed(at, error) => s.row.pending
  }

  lemma CommitRow(s: Sub, c: Commit)
    requires c.Renewed? ==> Apply(s, c.r, c.at).Some?
    ensures
      var s1 := Replay1(s, c);
      && s1.version == s.version + 1
      && s1.pending == (c.Renewed? || c.Revoked? || (s.pending && !c.DeliveryDone?))
      && (c.UsageSynced? || c.DeliveryDone? || c.DeliveryFailed? ==> s1.volume == s.volume && s1.endsAt == s.endsAt)
      && (c.DeliveryDone? || c.DeliveryFailed? ==> s1.status == s.status)
      && (c.UsageSynced? ==> s1.status == c.status)
  {
  }

  lemma CommitKeepsTasks(s: System, t: nat, c: Commit)
    requires LockIsHeld(s) && TasksAreCurrent(s) && MayCommit(s, t, c)
    ensures LockIsHeld(Commits(s, t, c)) && TasksAreCurrent(Commits(s, t, c))
  {
    CommitRow(s.row, c);
    hide Apply, Replay1;
  }

  lemma CommitKeepsPanel(s: System, t: nat, c: Commit)
    requires PanelAgrees(s) && MayCommit(s, t, c)
    ensures PanelAgrees(Commits(s, t, c))
  {
    CommitRow(s.row, c);
    hide Apply, Replay1;
  }

  lemma CommitKeeps(row0: Sub, s: System, t: nat, c: Commit)
    requires Inv(row0, s) && MayCommit(s, t, c)
    ensures Inv(row0, Commits(s, t, c))
  {
    CommitKeepsTasks(s, t, c);
    CommitKeepsPanel(s, t, c);
    LogGrows(row0, s.log, c);
    hide Apply, Replay1, LockIsHeld, TasksAreCurrent, PanelAgrees, Genuine;
  }

  lemma PushKeeps(row0: Sub, s: System, t: nat)
    requires Inv(row0, s) && t < |s.tasks| && s.tasks[t].Delivering?
    ensures Inv(row0, PanelTook(s, t)) && Agrees(PanelTook(s, t))
  {
    hide Apply, Replay;
    assert s.log[..|s.log|] == s.log;
  }

  lemma CutOffKeeps(row0: Sub, s: System, t: nat)
    requires Inv(row0, s) && t < |s.tasks| && s.tasks[t].Syncing?
    ensures Inv(row0, CutsOff(s, t))
  {
    hide Apply, Replay;
  }

  lemma RenewalEnds(row0: Sub, s: System, t: nat)
    requires Inv(row0, s) && t < |s.tasks| && s.tasks[t].Renewing?
    ensures Inv(row0, EndsRenewal(s, t))
  {
    hide Replay, QueueSync, NewLimits;
    var task := s.tasks[t];
    if task.result.None? {
      QuietStep(row0, s, EndsRenewal(s, t));
    } else {
      var done := Commits(s, t, Renewed(task.r, task.at));
      CommitKeeps(row0, s, t, Renewed(task.r, task.at));
      QuietStep(row0, done, EndsRenewal(s, t));
    }
  }

  lemma UsageKeeps(row0: Sub, s: System, a: Action)
    requires Inv(row0, s) && a.EndUsage? && a.t < |s.tasks| && s.tasks[a.t].Syncing?
    ensures Inv(row0, Next(s, a))
  {
    hide Apply, Replay, Replay1, Push, Commits, Genuine;
    var task := s.tasks[a.t];
    if s.lock.None? && SyncMayChange(task.seen, a.used, s.clock, a.status) {
      if task.seen.version == s.row.version {
        CommitKeeps(row0, s, a.t, UsageSynced(a.used, a.status));
      } else {
        QuietStep(row0, s, Next(s, a));
      }
    }
  }

  predicate Quiet(a: Action) {
    !a.EndRenewal? && !a.Revoke? && !a.PanelTakes? && !a.EndDelivery? && !a.CutOff? && !a.EndUsage?
  }

  lemma QuietLocks(s: System, a: Action)
    requires LockIsHeld(s) && TasksAreCurrent(s) && Quiet(a)
    ensures LockIsHeld(Next(s, a)) && TasksAreCurrent(Next(s, a))
  {
    hide Apply, TimeBlocked, VolumeBlocked, TooEarly;
  }

  lemma QuietKeeps(row0: Sub, s: System, a: Action)
    requires Inv(row0, s) && Quiet(a)
    ensures Inv(row0, Next(s, a))
  {
    QuietLocks(s, a);
    hide Apply, TimeBlocked, VolumeBlocked, TooEarly, LockIsHeld, TasksAreCurrent, Agrees, Replay, Genuine;
    QuietStep(row0, s, Next(s, a));
  }

  lemma NextKeeps(row0: Sub, s: System, a: Action)
    requires Inv(row0, s)
    ensures Inv(row0, Next(s, a))
  {
    hide Apply, Replay, Replay1, Push, Commits;
    if Quiet(a) {
      QuietKeeps(row0, s, a);
    } else if a.t < |s.tasks| {
      var t, task := a.t, s.tasks[a.t];
      if a.EndRenewal? && task.Renewing? {
        RenewalEnds(row0, s, t);
      } else if a.PanelTakes? && task.Delivering? {
        PushKeeps(row0, s, t);
      } else if a.CutOff? && task.Syncing? {
        CutOffKeeps(row0, s, t);
      } else if a.Revoke? && Next(s, a) != s {
        CommitKeeps(row0, s, t, Revoked);
      } else if a.EndDelivery? && task.Pushed? {
        CommitKeeps(row0, s, t, DeliveryDone(task.at));
      } else if a.EndDelivery? && task.Failing? {
        CommitKeeps(row0, s, t, DeliveryFailed(task.at, a.error));
      } else if a.EndUsage? && task.Syncing? {
        UsageKeeps(row0, s, a);
      }
    }
  }

  lemma {:induction false} RunKeeps(row0: Sub, s: System, actions: seq<Action>)
    requires Inv(row0, s)
    ensures Inv(row0, Outbox.Run(s, actions))
    decreases |actions|
  {
    if actions != [] {
      NextKeeps(row0, s, actions[0]);
      RunKeeps(row0, Next(s, actions[0]), actions[1..]);
    }
  }

  // ── What every run keeps ──────────────────────────────────────────────────────────────────

  /** A service whose panel client has the limits of its row, before anybody works on it. */
  ghost predicate Fresh(s: System) {
    && s.log == [] && s.lock.None? && (forall t :: 0 <= t < |s.tasks| ==> s.tasks[t].Idle?)
    && s.quotaFrom == 0 && s.panel.quota == s.row.volume && Agrees(s)
    && (s.expiryFrom.None? || (s.expiryFrom.value == 0 && s.panel.expiryMs == ExpiryMs(s.row)))
    && !s.accepted && !s.overwritten && s.clock >= 1000
  }

  lemma FreshIsInv(s: System)
    requires Fresh(s)
    ensures Inv(s.row, s)
  {
  }

  /** Until a usage sync writes to the panel: a row with nothing pending has its limits on the panel,
      and writing them once more after a crash changes nothing. Always: the panel's limits are those
      of a committed row, and the row is its committed transactions one after another. */
  lemma RunIsSafe(s: System, actions: seq<Action>)
    requires Fresh(s)
    ensures
      var end := Outbox.Run(s, actions);
      && (!end.overwritten && !end.row.pending && end.row.status != PendingActivation ==>
            end.panel == Panel(end.row.volume, ExpiryMs(end.row)))
      && (!end.overwritten && end.accepted ==> Push(end.panel, end.row) == end.panel)
      && PanelIsCommitted(s.row, end)
      && end.row == Replay(s.row, end.log)
      && Genuine(s.row, end.log)
  {
    FreshIsInv(s);
    RunKeeps(s.row, s, actions);
    hide Outbox.Run, Replay, Genuine, LockIsHeld, TasksAreCurrent;
  }

  lemma {:induction false} ReplayOnTop(row: Sub, first: seq<Commit>, rest: seq<Commit>)
    ensures Replay(row, first + rest) == Replay(Replay(row, first), rest)
  {
    hide Replay1;
    if rest == [] {
      assert first + rest == first;
    } else {
      var before := rest[..|rest| - 1];
      ReplayOnTop(row, first, before);
      assert (first + rest)[..|first + rest| - 1] == first + before;
    }
  }

  lemma {:induction false} LogOnlyGrows(s: System, actions: seq<Action>)
    ensures s.log <= Outbox.Run(s, actions).log
    decreases |actions|
  {
    hide Apply, Replay1, Push, MayStart, TooEarly;
    if actions != [] {
      LogOnlyGrows(Next(s, actions[0]), actions[1..]);
    }
  }

  /** No committed transaction is ever lost: whatever happens later, the row is the row it left with
      the later transactions on top. */
  lemma NothingIsLost(row0: Sub, s: System, actions: seq<Action>)
    requires Inv(row0, s)
    ensures
      var end := Outbox.Run(s, actions);
      s.log <= end.log && end.row == Replay(s.row, end.log[|s.log|..])
  {
    hide Outbox.Run, Replay, Genuine, LockIsHeld, TasksAreCurrent, PanelIsCommitted, PanelAgrees;
    var end := Outbox.Run(s, actions);
    RunKeeps(row0, s, actions);
    LogOnlyGrows(s, actions);
    ReplayOnTop(row0, s.log, end.log[|s.log|..]);
    assert end.log == s.log + end.log[|s.log|..];
  }

  lemma {:induction false} PendingUntilDelivered(row0: Sub, log: seq<Commit>, i: nat, j: nat)
    requires Genuine(row0, log) && i < j <= |log| && log[i].Renewed?
    requires forall k :: i < k < j ==> !log[k].DeliveryDone?
    ensures Replay(row0, log[..j]).pending
    decreases j
  {
    var before := log[..j - 1];
    assert log[..j][..j - 1] == before;
    assert log[j - 1].Renewed? ==> Apply(Replay(row0, before), log[j - 1].r, log[j - 1].at).Some?;
    if i < j - 1 {
      PendingUntilDelivered(row0, log, i, j - 1);
    }
    CommitRow(Replay(row0, before), log[j - 1]);
    hide Apply, Replay1, Genuine;
  }

  /** At most one renewal is outstanding: between any two committed ones the panel took the first. */
  lemma DeliveredBetweenRenewals(s: System, actions: seq<Action>, i: nat, j: nat)
    requires Fresh(s)
    requires
      var log := Outbox.Run(s, actions).log;
      i < j < |log| && log[i].Renewed? && log[j].Renewed?
    ensures exists k :: i < k < j && Outbox.Run(s, actions).log[k].DeliveryDone?
  {
    hide Outbox.Run, Replay, Replay1, NewLimits, LockIsHeld, TasksAreCurrent, PanelIsCommitted, PanelAgrees;
    var log := Outbox.Run(s, actions).log;
    FreshIsInv(s);
    RunKeeps(s.row, s, actions);
    if forall k :: i < k < j ==> !log[k].DeliveryDone? {
      PendingUntilDelivered(s.row, log, i, j);
    }
  }

  // ── The lease may end before the work ─────────────────────────────────────────────────────

  /** Two renewals at work at once, the second admitted because the first one's lease ran out: the
      first commits, the second is refused on the refreshed row, and the first one's late release
      leaves the second one's lease alone. */
  lemma SecondRenewalIsRefused(s: System, r0: Request, r1: Request, ttl: nat)
    requires s.lock.None? && s.lease.None? && |s.tasks| == 2 && s.tasks[0].Idle? && s.tasks[1].Idle?
    requires MayStart(s, r0) && MayStart(Next(s, Tick(ttl)), r1)
    requires Apply(s.row, r0, s.clock + ttl).Some?
    ensures
      var both := Next(Next(Next(s, Start(0, r0, ttl)), Tick(ttl)), Start(1, r1, ttl));
      var first := Next(Next(Next(both, LockAndApply(0)), LockAndApply(1)), EndRenewal(0));
      var second := Next(Next(first, LockAndApply(1)), EndRenewal(1));
      && both.tasks == [Started(r0), Started(r1)]
      && first.row == Apply(s.row, r0, s.clock + ttl).value && first.log == s.log + [Renewed(r0, s.clock + ttl)]
      && first.lease.Some? && first.lease.value.owner == 1
      && second.row == first.row && second.log == first.log && second.lease.None?
  {
    hide NewLimits, Replay1;
    var both := Next(Next(Next(s, Start(0, r0, ttl)), Tick(ttl)), Start(1, r1, ttl));
    assert both.tasks == [Started(r0), Started(r1)];
    var locked := Next(both, LockAndApply(0));
    assert Next(locked, LockAndApply(1)) == locked;
    var first := Next(locked, EndRenewal(0));
    assert first.tasks == [Idle, Started(r1)] && first.row.pending;
    assert Next(first, LockAndApply(1)).tasks[1].result.None?;
  }

  /** Half a minute, doubled with every attempt, up to an hour: the cap on the exponent keeps the
      numbers small and never changes the wait. */
  lemma BackoffDoubles(attempts: nat)
    ensures Backoff(attempts) == Min(30 * Pow2(attempts), 3600)
  {
  }

  /** Failures in a row. */
  function Failures(s: Sub, times: seq<int>, error: string): Sub {
    if times == [] then s
    else MarkFailed(Attempt(Failures(s, times[..|times| - 1], error), times[|times| - 1]), error)
  }

  /** After the k-th failure in a row of a queued row, the worker leaves it alone for 30 seconds times
      two to the k, at most an hour, and the row is still pending with its limits. */
  lemma {:induction false} FailuresBackOff(s: Sub, times: seq<int>, error: string, now: int)
    requires s.pending && s.attempts == 0
    ensures
      var t, k := Failures(s, times, error), |times|;
      && t.attempts == k && t.pending && t.volume == s.volume && t.endsAt == s.endsAt && t.status == s.status
      && (k > 0 ==>
            && t.attemptedAt == Some(times[k - 1]) && t.error == Some(error)
            && (TooEarly(t, now) <==> now < times[k - 1] + Min(30 * Pow2(k), 3600) * 1_000_000))
  {
    if times != [] {
      FailuresBackOff(s, times[..|times| - 1], error, now);
      BackoffDoubles(|times|);
    }
  }

  /** However often delivery failed and whatever a usage sync wrote meanwhile, an hour after the last
      attempt one delivery gives the panel the limits of the row. */
  lemma DeliveryRepairs(s: System, t: nat, error: string)
    requires t < |s.tasks| && s.tasks[t].Idle? && s.lock.None? && s.row.pending
    requires s.row.attemptedAt.Some? ==> s.row.attemptedAt.value <= s.clock
    ensures
      var taken := Next(Next(Next(s, Tick(3600 * SECOND)), PickUp(t)), PanelTakes(t));
      var end := Next(taken, EndDelivery(t, error));
      && !end.row.pending && end.row.volume == s.row.volume && end.row.endsAt == s.row.endsAt
      && Agrees(end) && !end.overwritten
  {
    var early := Next(s, Tick(3600 * SECOND));
    assert !TooEarly(early.row, early.clock);
    var picked := Next(early, PickUp(t));
    assert picked.tasks[t] == Delivering(early.clock, s.row);
    var taken := Next(picked, PanelTakes(t));
    assert taken.tasks[t] == Pushed(early.clock, s.row);
  }

  // ── The usage sync's own panel write ──────────────────────────────────────────────────────

  predicate ActiveAgrees(s: System) {
    s.row.status == Active && !s.row.pending ==> s.panel == Panel(s.row.volume, ExpiryMs(s.row))
  }

  predicate Differs(s: System) { s.panel != Panel(s.row.volume, ExpiryMs(s.row)) }

  /** The steps by which an active service with nothing pending comes to disagree with its panel:
      a usage sync cuts it off with other limits than the row has; one finds a service alive that was
      cut off; or the worker commits after such a cut-off landed on its own write. */
  predicate Breaks(s: System, a: Action) {
    if a.Tick? || a.t >= |s.tasks| then false
    else
      var task := s.tasks[a.t];
      match a
      case CutOff(_, used, abuse) =>
        && task.Syncing? && MayCutOff(task.seen, used, abuse, s.clock)
        && s.row.status == Active && !s.row.pending
        && (task.seen.volume != s.row.volume || s.clock / 1000 != ExpiryMs(s.row))
      case EndUsage(_, used, status) =>
        && task.Syncing? && s.lock.None? && SyncMayChange(task.seen, used, s.clock, status)
        && task.seen.version == s.row.version && status == Active && s.overwritten && Differs(s)
      case EndDelivery(_, _) => task.Pushed? && s.row.status == Active && s.overwritten && Differs(s)
      case _ => false
  }

  lemma QuietAgrees(s: System, a: Action)
    requires Quiet(a)
    ensures Next(s, a).row == s.row && Next(s, a).panel == s.panel && !Breaks(s, a)
  {
    hide Apply, MayStart, TooEarly, IsSwept;
  }

  lemma CommitAgrees(s: System, t: nat, c: Commit)
    requires MayCommit(s, t, c)
    ensures
      var end := Commits(s, t, c);
      && end.panel == s.panel
      && (c.Renewed? || c.Revoked? || c.DeliveryFailed? ==> end.row.pending)
      && (c.UsageSynced? ==> end.row.status == c.status && !end.row.pending)
      && (c.DeliveryDone? ==> end.row.status == s.row.status && !end.row.pending)
      && (c.UsageSynced? || c.DeliveryDone? ==> (Differs(end) <==> Differs(s)))
  {
    CommitRow(s.row, c);
    hide Apply, Replay1;
  }

  lemma UsageAgreesIff(row0: Sub, s: System, a: Action)
    requires Inv(row0, s) && ActiveAgrees(s) && a.EndUsage? && a.t < |s.tasks| && s.tasks[a.t].Syncing?
    ensures ActiveAgrees(Next(s, a)) <==> !Breaks(s, a)
  {
    hide Replay, Genuine, LockIsHeld, Commits, Replay1;
    var task := s.tasks[a.t];
    if s.lock.None? && SyncMayChange(task.seen, a.used, s.clock, a.status) && task.seen.version == s.row.version {
      CommitAgrees(s, a.t, UsageSynced(a.used, a.status));
    }
  }

  lemma WorkerAgreesIff(row0: Sub, s: System, a: Action)
    requires Inv(row0, s) && ActiveAgrees(s) && (a.PanelTakes? || a.EndDelivery?) && a.t < |s.tasks|
    ensures ActiveAgrees(Next(s, a)) <==> !Breaks(s, a)
  {
    hide Replay, Genuine, Apply, Commits, Replay1;
    var task := s.tasks[a.t];
    if a.EndDelivery? && task.Pushed? {
      CommitAgrees(s, a.t, DeliveryDone(task.at));
    } else if a.EndDelivery? && task.Failing? {
      CommitAgrees(s, a.t, DeliveryFailed(task.at, a.error));
    }
  }

  lemma RenewalAgrees(row0: Sub, s: System, a: Action)
    requires Inv(row0, s) && ActiveAgrees(s) && (a.EndRenewal? || a.Revoke?) && a.t < |s.tasks|
    ensures ActiveAgrees(Next(s, a)) && !Breaks(s, a)
  {
    hide Replay, Genuine, LockIsHeld, NewLimits;
    if a.Revoke? && Next(s, a) != s {
      CommitAgrees(s, a.t, Revoked);
    }
  }

  /** A step keeps active services agreeing with their panel if and only if it is none of those. */
  lemma StepAgreesIff(row0: Sub, s: System, a: Action)
    requires Inv(row0, s) && ActiveAgrees(s)
    ensures ActiveAgrees(Next(s, a)) <==> !Breaks(s, a)
  {
    if Quiet(a) {
      QuietAgrees(s, a);
      hide Inv, Next, Breaks;
    } else if a.t < |s.tasks| {
      if a.EndUsage? && s.tasks[a.t].Syncing? {
        UsageAgreesIff(row0, s, a);
        hide Inv, Next, Breaks;
      } else if a.PanelTakes? || a.EndDelivery? {
        WorkerAgreesIff(row0, s, a);
        hide Inv, Next, Breaks;
      } else if a.EndRenewal? || a.Revoke? {
        RenewalAgrees(row0, s, a);
        hide Inv, Next, Breaks;
      } else {
        hide Inv, Apply, Commits;
      }
    } else {
      hide Inv, Apply, Commits;
    }
  }

  ghost predicate AgreesThroughout(s: System, actions: seq<Action>)
    decreases |actions|
  {
    ActiveAgrees(s) && (actions != [] ==> AgreesThroughout(Next(s, actions[0]), actions[1..]))
  }

  ghost predicate NothingBreaks(s: System, actions: seq<Action>)
    decreases |actions|
  {
    actions != [] ==> !Breaks(s, actions[0]) && NothingBreaks(Next(s, actions[0]), actions[1..])
  }

  /** Over every run: active services with nothing pending have their limits on the panel in every
      state if and only if none of those steps was taken. */
  lemma {:induction false} RunAgreesIff(row0: Sub, s: System, actions: seq<Action>)
    requires Inv(row0, s) && ActiveAgrees(s)
    ensures AgreesThroughout(s, actions) <==> NothingBreaks(s, actions)
    decreases |actions|
  {
    hide Inv, Next, Breaks, ActiveAgrees;
    if actions != [] {
      StepAgreesIff(row0, s, actions[0]);
      NextKeeps(row0, s, actions[0]);
      if ActiveAgrees(Next(s, actions[0])) {
        RunAgreesIff(row0, Next(s, actions[0]), actions[1..]);
      }
    }
  }

  lemma StaysUntouched(s: System, a: Action)
    requires !s.overwritten && !a.CutOff?
    ensures !Next(s, a).overwritten && !Breaks(s, a)
  {
    hide Apply, Replay1, Push, MayStart, TooEarly, IsSwept;
  }

  lemma {:induction false} NoCutOffBreaksNothing(s: System, actions: seq<Action>)
    requires !s.overwritten && forall i :: 0 <= i < |actions| ==> !actions[i].CutOff?
    ensures NothingBreaks(s, actions)
    decreases |actions|
  {
    hide Next, Breaks;
    if actions != [] {
      StaysUntouched(s, actions[0]);
      NoCutOffBreaksNothing(Next(s, actions[0]), actions[1..]);
    }
  }

  /** In particular without cut-offs: renewals, workers, crashes, bans and usage readings alone, in any
      interleaving, never leave an active service and its panel disagreeing. */
  lemma WithoutCutOffsAgrees(s: System, actions: seq<Action>)
    requires Fresh(s) && forall i :: 0 <= i < |actions| ==> !actions[i].CutOff?
    ensures AgreesThroughout(s, actions)
  {
    FreshIsInv(s);
    NoCutOffBreaksNothing(s, actions);
    RunAgreesIff(s.row, s, actions);
  }

  /** An ordinary cut-off lasts until its own commit: that makes the service expired or disabled. */
  lemma OwnCommitSettles(row0: Sub, s: System, t: nat, used: int, status: Status)
    requires Inv(row0, s) && t < |s.tasks| && s.tasks[t].Syncing? && s.lock.None? && status != Active
    requires s.tasks[t].seen.version == s.row.version && SyncMayChange(s.tasks[t].seen, used, s.clock, status)
    ensures
      var end := Next(s, EndUsage(t, used, status));
      ActiveAgrees(end) && end.row.status == status && end.panel == s.panel
  {
    hide Replay, Genuine, Apply;
  }

  /** A cut-off whose transaction is rolled back, because another row of the batch was stale: nobody
      committed, and the service is active in the row and over on the panel. */
  lemma AbortedCutOffStays(s: System, used: int)
    requires Fresh(s) && |s.tasks| == 1 && s.row.status == Active && !s.row.pending
    requires s.row.endsAt.Some? ==> s.row.endsAt.value / 1000 != s.clock / 1000
    ensures
      var end := Next(Next(Next(s, ReadUsage(0)), CutOff(0, used, true)), Abort(0, false));
      end.row == s.row && end.log == s.log && end.tasks == [Idle] && ActiveAgrees(s) && !ActiveAgrees(end)
  {
    hide Replay;
    var read := Next(s, ReadUsage(0));
    assert read.tasks == [Syncing(s.row, 0)];
    var cut := Next(read, CutOff(0, used, true));
    assert cut.tasks == read.tasks && cut.row == s.row;
  }

  lemma RenewalPushedWhileSyncing(s: System, r: Request, ttl: nat)
    requires Fresh(s) && s.lease.None? && |s.tasks| == 2
    requires s.row.status == Active && !s.row.pending && r.kind == Time && Apply(s.row, r, s.clock).Some?
    ensures
      var renewed := Next(Next(Next(Next(s, ReadUsage(0)), Start(1, r, ttl)), LockAndApply(1)), EndRenewal(1));
      var taken := Next(Next(renewed, PickUp(1)), PanelTakes(1));
      var row := Apply(s.row, r, s.clock).value;
      && taken.tasks == [Syncing(s.row, 0), Pushed(s.clock, row)] && taken.lock == Some(1) && taken.clock == s.clock
      && taken.row == row && taken.panel == Push(s.panel, row)
  {
    hide Replay, NewLimits;
    var read := Next(s, ReadUsage(0));
    assert read.tasks == [Syncing(s.row, 0), Idle];
    var started := Next(read, Start(1, r, ttl));
    assert started.tasks == [Syncing(s.row, 0), Started(r)];
    var renewed := Next(Next(started, LockAndApply(1)), EndRenewal(1));
    assert renewed.tasks == [Syncing(s.row, 0), Idle] && renewed.row == Apply(s.row, r, s.clock).value;
    var taken := Next(Next(renewed, PickUp(1)), PanelTakes(1));
    assert taken.tasks == [Syncing(s.row, 0), Pushed(s.clock, renewed.row)] && taken.row == renewed.row;
  }

  lemma RenewalDeliveredWhileSyncing(s: System, r: Request, ttl: nat)
    requires Fresh(s) && s.lease.None? && |s.tasks| == 2
    requires s.row.status == Active && !s.row.pending && r.kind == Time && Apply(s.row, r, s.clock).Some?
    ensures
      var renewed := Next(Next(Next(Next(s, ReadUsage(0)), Start(1, r, ttl)), LockAndApply(1)), EndRenewal(1));
      var delivered := Next(Next(Next(renewed, PickUp(1)), PanelTakes(1)), EndDelivery(1, ""));
      && delivered.tasks == [Syncing(s.row, 0), Idle] && delivered.lock.None? && delivered.clock == s.clock
      && delivered.row == MarkDelivered(Attempt(Apply(s.row, r, s.clock).value, s.clock))
      && delivered.panel == Push(s.panel, delivered.row)
  {
    RenewalPushedWhileSyncing(s, r, ttl);
    var renewed := Next(Next(Next(Next(s, ReadUsage(0)), Start(1, r, ttl)), LockAndApply(1)), EndRenewal(1));
    DeliveryEnds(Next(Next(renewed, PickUp(1)), PanelTakes(1)));
    hide Next, Apply, Fresh;
  }

  lemma DeliveryEnds(s: System)
    requires |s.tasks| == 2 && s.tasks[1].Pushed? && s.lock == Some(1)
    ensures
      var end := Next(s, EndDelivery(1, ""));
      && end.tasks == [s.tasks[0], Idle] && end.lock.None? && end.clock == s.clock && end.panel == s.panel
      && end.row == MarkDelivered(Attempt(s.row, s.tasks[1].at))
  {
  }

  lemma CutOffLands(s: System, used: int)
    requires |s.tasks| == 2 && s.tasks[0].Syncing? && s.tasks[0].seen.status == Active
    ensures
      var end := Next(s, CutOff(0, used, true));
      && end.tasks == s.tasks && end.lock == s.lock && end.clock == s.clock && end.row == s.row
      && end.panel == Panel(s.tasks[0].seen.volume, s.clock / 1000)
  {
  }

  /** A renewal, dated from now or later, and a cut-off that lands between the worker's write and its
      commit: the renewed service is active with nothing pending and over on the panel. */
  lemma CutOffDuringDelivery(s: System, r: Request, ttl: nat, used: int)
    requires Fresh(s) && s.lease.None? && |s.tasks| == 2
    requires s.row.status == Active && !s.row.pending && s.row.endsAt.Some?
    requires r.kind == Time && r.mapped && AddedDays(r) >= 1
    ensures
      var renewed := Next(Next(Next(Next(s, ReadUsage(0)), Start(1, r, ttl)), LockAndApply(1)), EndRenewal(1));
      var taken := Next(Next(renewed, PickUp(1)), PanelTakes(1));
      var end := Next(Next(taken, CutOff(0, used, true)), EndDelivery(1, ""));
      && taken.row.pending && Agrees(taken)
      && end.row.status == Active && !end.row.pending && end.panel.expiryMs == s.clock / 1000 < ExpiryMs(end.row)
  {
    hide Next, Replay;
    RenewalPushedWhileSyncing(s, r, ttl);
    var renewed := Next(Next(Next(Next(s, ReadUsage(0)), Start(1, r, ttl)), LockAndApply(1)), EndRenewal(1));
    var taken := Next(Next(renewed, PickUp(1)), PanelTakes(1));
    CutOffLands(taken, used);
    DeliveryEnds(Next(taken, CutOff(0, used, true)));
  }

  lemma StaleCutOff(s: System, used: int)
    requires |s.tasks| == 2 && s.tasks[0].Syncing? && s.lock.None? && s.tasks[0].seen.version != s.row.version
    requires s.tasks[0].seen.status == Active && OutOfTime(s.tasks[0].seen, s.clock)
    ensures
      var end := Next(Next(s, CutOff(0, used, false)), EndUsage(0, used, Expired));
      end.row == s.row && end.panel.expiryMs == s.clock / 1000
  {
    var cut := Next(s, CutOff(0, used, false));
    assert cut.tasks == s.tasks && cut.row == s.row;
  }

  /** A time renewal that commits and reaches the panel while a usage sync holds an older reading of
      the service, which has just run out: the sync's write cuts the renewed service off, its own
      commit is refused, and nothing is left pending that would repair the panel. */
  lemma StaleCutOffUndoesRenewal(s: System, r: Request, ttl: nat, used: int)
    requires Fresh(s) && s.lease.None? && |s.tasks| == 2
    requires s.row.status == Active && !s.row.pending && OutOfTime(s.row, s.clock)
    requires r.kind == Time && r.mapped && AddedDays(r) >= 1
    ensures
      var renewed := Next(Next(Next(Next(s, ReadUsage(0)), Start(1, r, ttl)), LockAndApply(1)), EndRenewal(1));
      var delivered := Next(Next(Next(renewed, PickUp(1)), PanelTakes(1)), EndDelivery(1, ""));
      var end := Next(Next(delivered, CutOff(0, used, false)), EndUsage(0, used, Expired));
      && delivered.panel == Panel(end.row.volume, ExpiryMs(end.row))
      && end.row == delivered.row && end.row.status == Active && !end.row.pending
      && end.panel.expiryMs == s.clock / 1000 < ExpiryMs(end.row)
  {
    hide Next, Replay;
    RenewalDeliveredWhileSyncing(s, r, ttl);
    var renewed := Next(Next(Next(Next(s, ReadUsage(0)), Start(1, r, ttl)), LockAndApply(1)), EndRenewal(1));
    var delivered := Next(Next(Next(renewed, PickUp(1)), PanelTakes(1)), EndDelivery(1, ""));
    StaleCutOff(delivered, used);
  }

  /** Finding an expired service alive leaves row and panel agreeing exactly when no usage sync wrote
      to the panel since the last delivery, or the cut-off fell in the very millisecond in which the
      service ends (then so does its revival) and left the quota as it is. */
  lemma RevivalIff(row0: Sub, s: System, t: nat, used: int)
    requires Inv(row0, s) && t < |s.tasks| && s.tasks[t].Syncing? && s.lock.None?
    requires s.tasks[t].seen.version == s.row.version && Revives(s.row, used, s.clock)
    ensures
      var end := Next(s, EndUsage(t, used, Active));
      var sameMillisecond := s.row.endsAt.Some? && s.panel.expiryMs == s.row.endsAt.value / 1000;
      && end.row.status == Active && !end.row.pending
      && (ActiveAgrees(end) <==> !s.overwritten || (sameMillisecond && s.panel.quota == s.row.volume))
      && (s.overwritten && sameMillisecond ==> s.clock / 1000 == s.row.endsAt.value / 1000)
  {
    hide Replay, Genuine, Apply, LockIsHeld;
    assert s.tasks[t].seen == s.row;
  }

  /** A service cut off for its traffic by the sweep, and found alive in the detail view after its
      counter was reset on the panel: it is active again in the row and over on the panel, unless it
      ends within that millisecond anyway. */
  lemma RevivedServiceStaysCutOff(s: System, used: int, later: int)
    requires Fresh(s) && |s.tasks| == 1 && s.row.status == Active && !s.row.pending
    requires UsedUp(s.row, used) && !UsedUp(s.row, later) && !OutOfTime(s.row, s.clock)
    requires s.row.endsAt.Some? ==> s.row.endsAt.value / 1000 > s.clock / 1000
    ensures
      var cut := Next(Next(Next(s, ReadUsage(0)), CutOff(0, used, false)), EndUsage(0, used, Expired));
      var end := Next(Next(cut, ReadDetail(0)), EndUsage(0, later, Active));
      && Next(cut, ReadUsage(0)) == cut
      && end.row.status == Active && !end.row.pending && end.row.endsAt == s.row.endsAt
      && end.panel.expiryMs == s.clock / 1000 && !ActiveAgrees(end)
  {
    hide Replay;
    var read := Next(s, ReadUsage(0));
    assert read.tasks == [Syncing(s.row, 0)];
    var cut := Next(Next(read, CutOff(0, used, false)), EndUsage(0, used, Expired));
    assert cut.tasks == [Idle] && cut.row.status == Expired && cut.row.used == used;
    assert Next(cut, ReadDetail(0)).tasks[0].Syncing?;
  }
}
