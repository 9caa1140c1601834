/** Exactly when each step of the outbox system takes effect, read off the row, the clock, the lock and
    the lease, and what it leaves. */
module OutboxLaws {
  import opened Options
  import opened Renewals
  import opened Outbox
  import Lease

  predicate IdleTask(s: System, t: nat) { t < |s.tasks| && s.tasks[t].Idle? }

  /** A renewal starts when no living lease stands in its way and the row as read allows it; a lease
      that somebody still holds turns it away. */
  lemma StartIff(s: System, t: nat, r: Request, ttl: nat)
    requires IdleTask(s, t)
    ensures
      var free := s.lease.Some? ==> s.lease.value.deadline <= s.clock;
      var allowed := match r.kind
                     case Volume => s.row.endsAt.None? || s.row.endsAt.value > s.clock
                     case Time => s.row.status != PendingActivation
                     case Plan => s.row.status != PendingActivation
                     case Unknown => true;
      Next(s, Start(t, r, ttl)) ==
      if free && allowed then s.(lease := Some(Lease.Entry(t, s.clock + ttl)), tasks := s.tasks[t := Started(r)]) else s
  {
  }

  /** The lease changes hands in three ways only: a start takes a free one, the end of the renewal or its
      rollback gives back one's own, and a crash leaves it to expire. */
  lemma LeaseMoves(s: System, a: Action)
    ensures
      var lease := Next(s, a).lease;
      var acts := !a.Tick? && a.t < |s.tasks|;
      var own := acts && s.lease.Some? && s.lease.value.owner == a.t;
      if acts && a.Start? && s.tasks[a.t].Idle? && Next(s, a).tasks[a.t].Started? then
        lease == Some(Lease.Entry(a.t, s.clock + a.ttl))
      else if own && ((a.EndRenewal? && s.tasks[a.t].Renewing?) || (a.Abort? && !a.crash)) then
        lease.None?
      else lease == s.lease
  {
  }

  /** An operator's ban disables a service that is running or waiting for its first use, once, and queues
      it for the panel; it waits for the row lock. */
  lemma RevokeIff(s: System, t: nat)
    requires IdleTask(s, t)
    ensures
      var end := Next(s, Revoke(t));
      if s.lock.None? && (s.row.status == Active || s.row.status == PendingActivation) then
        && end.log == s.log + [Revoked]
        && end.row == s.row.(status := Disabled, pending := true, error := None, attempts := 0, attemptedAt := None,
                             version := s.row.version + 1)
      else end == s
  {
  }

  /** The worker takes up a pending row nobody has locked, once the wait after its last try is over. */
  lemma PickUpIff(s: System, t: nat)
    requires IdleTask(s, t)
    ensures
      var due := s.row.attemptedAt.Some? ==> s.row.attemptedAt.value + Backoff(s.row.attempts) * 1_000_000 <= s.clock;
      Next(s, PickUp(t)) ==
      if s.lock.None? && s.row.pending && due then
        s.(lock := Some(t), tasks := s.tasks[t := Delivering(s.clock, s.row)])
      else s
  {
  }

  /** A call that raises, before the panel took the limits or after, ends as a failure on record: the row
      stays pending, and the panel keeps what it has. */
  lemma RaisedCallIsRetried(s: System, t: nat, error: string)
    requires t < |s.tasks| && (s.tasks[t].Delivering? || s.tasks[t].Pushed?)
    ensures
      var end := Next(Next(s, CallRaises(t)), EndDelivery(t, error));
      && end.panel == s.panel && end.tasks[t].Idle?
      && end.log == s.log + [DeliveryFailed(s.tasks[t].at, error)]
      && end.row == s.row.(error := Some(error), attempts := s.row.attempts + 1,
                           attemptedAt := Some(s.tasks[t].at), version := s.row.version + 1)
  {
  }

  /** The panel takes the limits the worker read, and no row, lock or lease changes with it. */
  lemma PanelTakesIff(s: System, t: nat)
    requires t < |s.tasks|
    ensures
      var end := Next(s, PanelTakes(t));
      match s.tasks[t]
      case Delivering(at, row) =>
        && end.panel.quota == row.volume
        && end.panel.expiryMs == (if row.status == PendingActivation then s.panel.expiryMs
                                  else if row.endsAt.None? then 0 else row.endsAt.value / 1000)
        && end.tasks == s.tasks[t := Pushed(at, row)]
        && (end.row, end.log, end.lock, end.lease, end.clock) == (s.row, s.log, s.lock, s.lease, s.clock)
      case _ => end == s
  {
  }

  /** What the worker commits: one more try on record either way; the panel's taking the limits settles
      the request, and a failure keeps it with the reason. */
  lemma DeliveryMarks(s: System, t: nat, error: string)
    requires t < |s.tasks| && (s.tasks[t].Pushed? || s.tasks[t].Failing?)
    ensures
      var end, took := Next(s, EndDelivery(t, error)), s.tasks[t].Pushed?;
      && end.row == s.row.(pending := !took && s.row.pending, error := if took then None else Some(error),
                           attempts := s.row.attempts + 1, attemptedAt := Some(s.tasks[t].at),
                           version := s.row.version + 1)
      && end.panel == s.panel && end.tasks[t].Idle?
  {
  }

  /** Which rows a usage sync reads: nothing that waits for the panel; the sweep leaves out disabled
      services and expired ones that are still over. */
  lemma ReadIff(s: System, t: nat)
    requires IdleTask(s, t)
    ensures
      var row := s.row;
      var over := (row.volume > 0 && row.used >= row.volume) || (row.endsAt.Some? && row.endsAt.value <= s.clock);
      var swept := match row.status
                   case Active => true
                   case PendingActivation => true
                   case Expired => row.endsAt.Some? && !over
                   case _ => false;
      var read := s.(tasks := s.tasks[t := Syncing(row, |s.log|)]);
      && Next(s, ReadDetail(t)) == (if !row.pending then read else s)
      && Next(s, ReadUsage(t)) == (if !row.pending && swept then read else s)
  {
  }

  /** A usage sync cuts off on the panel an active service that is over its volume or its time, and
      one that too many addresses use; an expired service only in the last case, if it is not over. */
  lemma CutOffIff(s: System, t: nat, used: int, abuse: bool)
    requires t < |s.tasks| && s.tasks[t].Syncing?
    ensures
      var seen := s.tasks[t].seen;
      var over := (seen.volume > 0 && used >= seen.volume) || (seen.endsAt.Some? && seen.endsAt.value <= s.clock);
      var end := Next(s, CutOff(t, used, abuse));
      if (seen.status == Active && (abuse || over)) || (seen.status == Expired && abuse && !over) then
        && end.panel == Panel(seen.volume, s.clock / 1000) && end.overwritten
        && end.row == s.row && end.log == s.log && end.tasks == s.tasks
      else end == s
  {
  }

  /** A usage sync writes the row it read only if no other commit came between. It may expire or disable
      an active service, and it brings back an expired one exactly when that is within its limits. */
  lemma EndUsageIff(s: System, t: nat, used: int, status: Status)
    requires t < |s.tasks| && s.tasks[t].Syncing? && s.lock.None?
    ensures
      var seen := s.tasks[t].seen;
      var over := (seen.volume > 0 && used >= seen.volume) || (seen.endsAt.Some? && seen.endsAt.value <= s.clock);
      var possible := match seen.status
                      case Active => status == Active || status == Expired || status == Disabled
                      case Expired => status == Expired || (!over && (status == Active || status == Disabled))
                      case _ => status == seen.status;
      var end := Next(s, EndUsage(t, used, status));
      if !possible then end == s
      else if seen.version != s.row.version then end == s.(tasks := s.tasks[t := Idle])
      else
        && end.row == s.row.(used := used, status := status, version := s.row.version + 1)
        && end.log == s.log + [UsageSynced(used, status)] && end.panel == s.panel && end.tasks[t].Idle?
  {
  }
}
