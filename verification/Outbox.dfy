/** One subscription row, its X-UI panel client, and any number of concurrent renewals, outbox
    workers, revocations and usage syncs. The row is the committed one; `FOR UPDATE` gives its lock
    to one task until that task's transaction ends. Sources: services/renewal.py,
    services/panel_sync.py, apps/worker/jobs/panel_sync.py, apps/worker/jobs/subscriptions.py,
    services/provisioning/manager.py, core/redis.py. */
module Outbox {
  import opened Options
  import opened Renewals
  import Lease

  /** `quota` in bytes, `expiryMs` in milliseconds since the epoch, 0 for none. */
  datatype Panel = Panel(quota: int, expiryMs: int)

  function ExpiryMs(s: Sub): int { if s.endsAt.Some? then s.endsAt.value / 1000 else 0 }

  /** The absolute limits the worker writes; the expiry of a service that has not started yet is
      left to its first use. */
  function Push(p: Panel, s: Sub): Panel {
    Panel(s.volume, if s.status == PendingActivation then p.expiryMs else ExpiryMs(s))
  }

  // ── The worker's own columns ──────────────────────────────────────────────────────────────

  const SECOND: int := 1_000_000

  function Min(a: int, b: int): int { if a < b then a else b }

  function Pow2(n: nat): nat { if n == 0 then 1 else 2 * Pow2(n - 1) }

  /** Seconds to wait after `attempts` tries. */
  function Backoff(attempts: nat): (r: int)
    ensures r <= 3600
  {
    Min(30 * Pow2(Min(attempts, 7)), 3600)
  }

  predicate TooEarly(s: Sub, now: int) {
    s.attemptedAt.Some? && s.attemptedAt.value + Backoff(s.attempts) * SECOND > now
  }

  function Attempt(s: Sub, now: int): Sub { s.(attemptedAt := Some(now), attempts := s.attempts + 1) }

  function MarkDelivered(s: Sub): Sub { s.(pending := false, error := None, version := s.version + 1) }

  function MarkFailed(s: Sub, error: string): Sub { s.(error := Some(error), version := s.version + 1) }

  // ── The system ────────────────────────────────────────────────────────────────────────────

  datatype Task =
    | Idle
    | Started(r: Request)                                   // read the row unlocked; took the lease
    | Renewing(r: Request, at: int, result: Option<Sub>)    // holds the row lock; `None`: it raised
    | Delivering(at: int, row: Sub)                         // worker: row locked and read, panel not asked yet
    | Pushed(at: int, row: Sub)                             // worker: the panel took the limits it read
    | Failing(at: int)                                      // worker: the call raised
    | Syncing(seen: Sub, from: nat)                         // usage sync: read the row unlocked

  /** One committed transaction, as the log remembers it. */
  datatype Commit =
    | Renewed(r: Request, at: int)
    | Revoked
    | UsageSynced(used: int, status: Status)
    | DeliveryDone(at: int)
    | DeliveryFailed(at: int, error: string)

  /** `quotaFrom` and `expiryFrom` record how many commits the row had seen when the panel was given
      its present quota and expiry (`None`: a usage sync cut the service off); `accepted`, that the
      panel was given the limits of the present row; `overwritten`, that a usage sync wrote to the
      panel after the last delivery. */
  datatype System = System(
    row: Sub, log: seq<Commit>, lock: Option<nat>, lease: Option<Lease.Entry<nat>>, clock: int, tasks: seq<Task>,
    panel: Panel, quotaFrom: nat, expiryFrom: Option<nat>, accepted: bool, overwritten: bool)

  predicate UsedUp(s: Sub, used: int) { s.volume > 0 && used >= s.volume }

  predicate OutOfTime(s: Sub, now: int) { s.endsAt.Some? && now >= s.endsAt.value }

  /** The rows of the background sweep; the detail view reads any row. */
  predicate IsSwept(s: Sub, now: int) {
    || s.status == Active || s.status == PendingActivation
    || (s.status == Expired && s.endsAt.Some? && !OutOfTime(s, now) && !UsedUp(s, s.used))
  }

  /** An expired service that a usage sync finds alive. */
  predicate Revives(seen: Sub, used: int, now: int) {
    seen.status == Expired && !UsedUp(seen, used) && !OutOfTime(seen, now)
  }

  /** Status changes a usage sync makes to a service that has been used: it may find that the client
      is gone, that the limits are reached, that too many addresses use it, or that an expired
      service is alive. */
  predicate SyncMayChange(seen: Sub, used: int, now: int, after: Status) {
    || seen.status == after
    || (seen.status == Active && (after == Expired || after == Disabled))
    || (Revives(seen, used, now) && (after == Active || after == Disabled))
  }

  predicate MayCutOff(seen: Sub, used: int, abuse: bool, now: int) {
    || (seen.status == Active && (abuse || UsedUp(seen, used) || OutOfTime(seen, now)))
    || (Revives(seen, used, now) && abuse)
  }

  function Replay1(s: Sub, c: Commit): Sub {
    match c
    case Renewed(r, at) => if Apply(s, r, at).Some? then Apply(s, r, at).value else s
    case Revoked => QueueSync(s.(status := Disabled, version := s.version + 1))
    case UsageSynced(used, status) => s.(used := used, status := status, version := s.version + 1)
    case DeliveryDone(at) => MarkDelivered(Attempt(s, at))
    case DeliveryFailed(at, error) => MarkFailed(Attempt(s, at), error)
  }

  /** One committed transaction after another, with nothing in between. */
  function Replay(s: Sub, log: seq<Commit>): Sub {
    if log == [] then s else Replay1(Replay(s, log[..|log| - 1]), log[|log| - 1])
  }

  datatype Action =
    | Tick(micros: nat)
    | Start(t: nat, r: Request, ttl: nat)      // take the lease if it is free, check the row as read
    | LockAndApply(t: nat)                     // `FOR UPDATE`, refresh, guards, new limits
    | EndRenewal(t: nat)                       // commit, or end the refused transaction; release the lease
    | Abort(t: nat, crash: bool)               // rollback; after a crash the lease is left to expire
    | Revoke(t: nat)
    | PickUp(t: nat)                           // worker: lock a pending row, unless it is too early
    | PanelTakes(t: nat)
    | CallRaises(t: nat)                       // before the panel took the write, or after
    | EndDelivery(t: nat, error: string)
    | ReadUsage(t: nat)                        // the background sweep reads the row
    | ReadDetail(t: nat)                       // somebody opens the service's detail view
    | CutOff(t: nat, used: int, abuse: bool)   // usage sync: expire the client on the panel
    | EndUsage(t: nat, used: int, status: Status)

  predicate LeaseFree(s: System) { s.lease.None? || s.lease.value.deadline <= s.clock }

  function Released(s: System, t: nat): Option<Lease.Entry<nat>> {
    if s.lease.Some? && s.lease.value.owner == t then None else s.lease
  }

  function Unlocked(s: System, t: nat): Option<nat> { if s.lock == Some(t) then None else s.lock }

  /** Commit `c`: the task's transaction ends with it. */
  function Commits(s: System, t: nat, c: Commit): System
    requires t < |s.tasks|
  {
    s.(row := Replay1(s.row, c), log := s.log + [c], lock := Unlocked(s, t), tasks := s.tasks[t := Idle],
       accepted := s.accepted && c.DeliveryFailed?)
  }

  predicate MayStart(s: System, r: Request) {
    LeaseFree(s) && !TimeBlocked(s.row, r.kind) && !VolumeBlocked(s.row, r.kind, s.clock)
  }

  /** The renewal writes the row it computed; replaying the log is what must give the same. */
  function EndsRenewal(s: System, t: nat): System
    requires t < |s.tasks| && s.tasks[t].Renewing?
  {
    var task := s.tasks[t];
    if task.result.None? then s.(lock := Unlocked(s, t), lease := Released(s, t), tasks := s.tasks[t := Idle])
    else Commits(s, t, Renewed(task.r, task.at)).(row := task.result.value, lease := Released(s, t))
  }

  function PanelTook(s: System, t: nat): System
    requires t < |s.tasks| && s.tasks[t].Delivering?
  {
    var row := s.tasks[t].row;
    s.(panel := Push(s.panel, row), quotaFrom := |s.log|,
       expiryFrom := if row.status == PendingActivation then s.expiryFrom else Some(|s.log|),
       accepted := true, overwritten := false, tasks := s.tasks[t := Pushed(s.tasks[t].at, row)])
  }

  /** The quota of the row as the sync read it, and an expiry of now. */
  function CutsOff(s: System, t: nat): System
    requires t < |s.tasks| && s.tasks[t].Syncing?
  {
    s.(panel := Panel(s.tasks[t].seen.volume, s.clock / 1000), quotaFrom := s.tasks[t].from,
       expiryFrom := None, overwritten := true)
  }

  /** An action that is not enabled changes nothing. */
  function Next(s: System, a: Action): System {
    if a.Tick? then s.(clock := s.clock + a.micros)
    else if a.t >= |s.tasks| then s
    else
      var t, task := a.t, s.tasks[a.t];
      match a
      case Tick(_) => s
      case Start(_, r, ttl) =>
        if !task.Idle? || !MayStart(s, r) then s
        else s.(lease := Some(Lease.Entry(t, s.clock + ttl)), tasks := s.tasks[t := Started(r)])
      case LockAndApply(_) =>
        if !task.Started? || s.lock.Some? then s
        else s.(lock := Some(t), tasks := s.tasks[t := Renewing(task.r, s.clock, Apply(s.row, task.r, s.clock))])
      case EndRenewal(_) => if task.Renewing? then EndsRenewal(s, t) else s
      case Abort(_, crash) =>
        s.(lock := Unlocked(s, t), lease := if crash then s.lease else Released(s, t), tasks := s.tasks[t := Idle])
      case Revoke(_) =>
        if !task.Idle? || s.lock.Some? || (s.row.status != Active && s.row.status != PendingActivation) then s
        else Commits(s, t, Revoked)
      case PickUp(_) =>
        if !task.Idle? || s.lock.Some? || !s.row.pending || TooEarly(s.row, s.clock) then s
        else s.(lock := Some(t), tasks := s.tasks[t := Delivering(s.clock, s.row)])
      case PanelTakes(_) => if task.Delivering? then PanelTook(s, t) else s
      case CallRaises(_) =>
        if task.Delivering? || task.Pushed? then s.(tasks := s.tasks[t := Failing(task.at)]) else s
      case EndDelivery(_, error) =>
        if task.Pushed? then Commits(s, t, DeliveryDone(task.at))
        else if task.Failing? then Commits(s, t, DeliveryFailed(task.at, error))
        else s
      case ReadUsage(_) =>
        if !task.Idle? || s.row.pending || !IsSwept(s.row, s.clock) then s
        else s.(tasks := s.tasks[t := Syncing(s.row, |s.log|)])
      case ReadDetail(_) =>
        if !task.Idle? || s.row.pending then s else s.(tasks := s.tasks[t := Syncing(s.row, |s.log|)])
      case CutOff(_, used, abuse) =>
        if task.Syncing? && MayCutOff(task.seen, used, abuse, s.clock) then CutsOff(s, t) else s
      case EndUsage(_, used, status) =>
        if !task.Syncing? || s.lock.Some? || !SyncMayChange(task.seen, used, s.clock, status) then s
        else if task.seen.version != s.row.version then s.(tasks := s.tasks[t := Idle])
        else Commits(s, t, UsageSynced(used, status))
  }

  function Run(s: System, actions: seq<Action>): System
    decreases |actions|
  {
    if actions == [] then s else Run(Next(s, actions[0]), actions[1..])
  }
}
