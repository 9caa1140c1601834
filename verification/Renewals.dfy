/** Renewals of one subscription (services/renewal.py, services/panel_sync.py). Times are
    microseconds since the epoch, sizes are bytes; `volume == 0` and `endsAt == None` mean "no cap". */
module Renewals {
  import opened Options

  const DAY: int := 86_400_000_000
  const GIGABYTE: int := 1_073_741_824

  datatype Status = Active | PendingActivation | Expired | Disabled | OtherStatus(text: string)

  datatype Sub = Sub(
    status: Status, startsAt: Option<int>, endsAt: Option<int>, volume: int, used: int,
    pending: bool, error: Option<string>, attempts: nat, attemptedAt: Option<int>, version: nat)

  datatype Kind = Volume | Time | Plan | Unknown
  datatype PlanRow = PlanRow(volumeBytes: int, durationDays: int)

  /** `mapped`: the panel mapping, its credentials and the client identifier are all there. */
  datatype Request = Request(kind: Kind, amount: real, plan: Option<PlanRow>, mapped: bool)

  /** Python's `int()` truncates toward zero. */
  function Truncate(x: real): int { if x >= 0.0 then x.Floor else -((-x).Floor) }

  predicate TimeBlocked(s: Sub, kind: Kind) { (kind == Time || kind == Plan) && s.status == PendingActivation }

  predicate VolumeBlocked(s: Sub, kind: Kind, now: int) {
    kind == Volume && s.endsAt.Some? && s.endsAt.value <= now
  }

  function QueueSync(s: Sub): Sub { s.(pending := true, error := None, attempts := 0, attemptedAt := None) }

  function AddedBytes(r: Request): int { Truncate(r.amount * GIGABYTE as real) }

  function AddedDays(r: Request): int { Truncate(r.amount) }

  /** The new limits, before the status and the outbox fields. */
  function NewLimits(s: Sub, r: Request, now: int): Sub {
    match r.kind
    case Volume => if s.volume > 0 then s.(volume := s.volume + AddedBytes(r)) else s
    case Time =>
      if s.endsAt.None? then s
      else s.(endsAt := Some((if s.endsAt.value < now then now else s.endsAt.value) + AddedDays(r) * DAY))
    case Plan =>
      if r.plan.None? then s
      else
        var p := r.plan.value;
        s.(volume := if p.volumeBytes > 0 then s.used + p.volumeBytes else 0,
           startsAt := Some(now),
           endsAt := if p.durationDays > 0 then Some(now + p.durationDays * DAY) else None)
    case Unknown => s
  }

  /** `None` stands for each refusal: a push still outstanding, a guard, a missing mapping, an
      unknown kind. The row is the one refreshed under the lock. */
  function Apply(s: Sub, r: Request, now: int): Option<Sub> {
    if s.pending || TimeBlocked(s, r.kind) || VolumeBlocked(s, r.kind, now) || !r.mapped || r.kind == Unknown then None
    else
      var t := NewLimits(s, r, now);
      Some(QueueSync(t.(status := if t.status == Expired then Active else t.status, version := t.version + 1)))
  }

  class Subscription {
    var status: Status
    var startsAt: Option<int>
    var endsAt: Option<int>
    var volume: int
    var used: int
    var pending: bool
    var error: Option<string>
    var attempts: nat
    var attemptedAt: Option<int>
    var version: nat

    constructor (row: Sub)
      ensures Row() == row
    {
      status, startsAt, endsAt, volume, used := row.status, row.startsAt, row.endsAt, row.volume, row.used;
      pending, error, attempts, attemptedAt, version :=
        row.pending, row.error, row.attempts, row.attemptedAt, row.version;
    }

    function Row(): Sub
      reads this
    {
      Sub(status, startsAt, endsAt, volume, used, pending, error, attempts, attemptedAt, version)
    }

    method RequestPanelSync()
      modifies this
      ensures Row() == QueueSync(old(Row()))
    {
      pending := true;
      error := None;
      attempts := 0;
      attemptedAt := None;
    }

    /** From the refreshed row on; a refusal raises and leaves the row as it was. */
    method ApplyRenewal(r: Request, now: int) returns (applied: bool)
      modifies this
      ensures applied == Apply(old(Row()), r, now).Some?
      ensures Row() == if applied then Apply(old(Row()), r, now).value else old(Row())
    {
      if pending {
        return false;
      }
      if (r.kind == Time || r.kind == Plan) && status == PendingActivation {
        return false;
      }
      if r.kind == Volume && endsAt.Some? && endsAt.value <= now {
        return false;
      }
      if !r.mapped || r.kind == Unknown {
        return false;
      }
      UpdateLimits(r, now);
      if status == Expired {
        status := Active;
      }
      version := version + 1;
      RequestPanelSync();
      return true;
    }

    method UpdateLimits(r: Request, now: int)
      modifies this
      ensures Row() == NewLimits(old(Row()), r, now)
    {
      match r.kind
      case Volume =>
        if volume > 0 {
          volume := volume + AddedBytes(r);
        }
      case Time =>
        if endsAt.Some? {
          if endsAt.value < now {
            endsAt := Some(now + AddedDays(r) * DAY);
          } else {
            endsAt := Some(endsAt.value + AddedDays(r) * DAY);
          }
        }
      case Plan =>
        if r.plan.Some? {
          var quota := r.plan.value.volumeBytes;
          volume := if quota > 0 then used + quota else 0;
          startsAt := Some(now);
          var days := r.plan.value.durationDays;
          endsAt := if days > 0 then Some(now + days * DAY) else None;
        }
      case Unknown =>
    }
  }

  // ── Accounting over runs ──────────────────────────────────────────────────────────────────

  /** What can happen to a subscription: a renewal request is served, the traffic counter moves on
      by some bytes, or the worker has delivered the limits and clears the marker. `at` is the time. */
  datatype Event = Renew(r: Request, at: int) | Use(bytes: int, at: int) | Delivered(at: int)

  function Step(s: Sub, e: Event): Sub {
    match e
    case Renew(r, at) => if Apply(s, r, at).Some? then Apply(s, r, at).value else s
    case Use(bytes, at) => s.(used := s.used + bytes)
    case Delivered(at) => s.(pending := false)
  }

  function Run(s: Sub, events: seq<Event>): Sub {
    if events == [] then s else Step(Run(s, events[..|events| - 1]), events[|events| - 1])
  }

  function Remaining(s: Sub, now: int): int {
    if s.endsAt.Some? && s.endsAt.value > now then s.endsAt.value - now else 0
  }

  /** The part of the time from `from` to `to` that a service with this end date covers. */
  function CoveredBetween(s: Sub, from: int, to: int): int {
    if s.endsAt.None? || s.endsAt.value <= from then 0
    else if s.endsAt.value < to then s.endsAt.value - from else to - from
  }

  /** Time covered from `start` to the last event, under the end dates in force meanwhile. */
  function Covered(s: Sub, start: int, events: seq<Event>): int {
    if events == [] then 0
    else
      var before := events[..|events| - 1];
      Covered(s, start, before)
      + CoveredBetween(Run(s, before), Clock(start, before), events[|events| - 1].at)
  }

  function Clock(start: int, events: seq<Event>): int {
    if events == [] then start else events[|events| - 1].at
  }

  predicate Served(s: Sub, e: Event, kind: Kind) { e.Renew? && e.r.kind == kind && Apply(s, e.r, e.at).Some? }

  function DaysGranted(s: Sub, events: seq<Event>): int {
    if events == [] then 0
    else
      var before, last := events[..|events| - 1], events[|events| - 1];
      DaysGranted(s, before) + (if Served(Run(s, before), last, Time) then AddedDays(last.r) else 0)
  }

  ghost predicate InOrder(start: int, events: seq<Event>) {
    && (forall i :: 0 <= i < |events| ==> start <= events[i].at)
    && (forall i, j :: 0 <= i < j < |events| ==> events[i].at <= events[j].at)
  }

  /** No plan renewals, and the amounts that pricing lets through (it refuses the others). */
  ghost predicate TopUpsOnly(events: seq<Event>) {
    forall i :: 0 <= i < |events| ==> (events[i].Renew? ==> events[i].r.kind != Plan && events[i].r.amount >= 0.0)
  }

  /** One time renewal adds its days to the remaining time exactly when it does not take away more
      than there is; for the days a customer can buy it always does. */
  lemma TimeRenewalIff(s: Sub, r: Request, now: int)
    requires s.endsAt.Some? && r.kind == Time && Apply(s, r, now).Some?
    ensures Remaining(Apply(s, r, now).value, now) == Remaining(s, now) + AddedDays(r) * DAY
            <==> AddedDays(r) * DAY >= -Remaining(s, now)
  {
  }

  lemma TimeStep(s: Sub, e: Event, from: int)
    requires s.endsAt.Some? && from <= e.at
    requires e.Renew? ==> e.r.kind != Plan && e.r.amount >= 0.0
    ensures Step(s, e).endsAt.Some?
    ensures CoveredBetween(s, from, e.at) + Remaining(Step(s, e), e.at)
            == Remaining(s, from) + (if Served(s, e, Time) then AddedDays(e.r) else 0) * DAY
  {
  }

  /** Days are neither lost nor given away: over any run of time and volume renewals of a dated
      service, time covered so far plus time remaining is what there was plus all days granted. */
  lemma {:induction false} DaysAreConserved(s: Sub, start: int, events: seq<Event>)
    requires s.endsAt.Some? && InOrder(start, events) && TopUpsOnly(events)
    ensures
      var end := Run(s, events);
      && end.endsAt.Some?
      && Covered(s, start, events) + Remaining(end, Clock(start, events))
         == Remaining(s, start) + DaysGranted(s, events) * DAY
  {
    if events != [] {
      var before := events[..|events| - 1];
      DaysAreConserved(s, start, before);
      TimeStep(Run(s, before), events[|events| - 1], Clock(start, before));
    }
  }

  function BytesAdded(s: Sub, events: seq<Event>): int {
    if events == [] then 0
    else
      var before, last := events[..|events| - 1], events[|events| - 1];
      BytesAdded(s, before) + (if Served(Run(s, before), last, Volume) then AddedBytes(last.r) else 0)
  }

  function BytesUsed(events: seq<Event>): int {
    if events == [] then 0
    else
      BytesUsed(events[..|events| - 1]) + (if events[|events| - 1].Use? then events[|events| - 1].bytes else 0)
  }

  lemma {:induction false} BytesAreConserved(s: Sub, events: seq<Event>)
    requires s.volume > 0 && TopUpsOnly(events)
    ensures
      var end := Run(s, events);
      && end.volume >= s.volume
      && end.volume - end.used == s.volume - s.used + BytesAdded(s, events) - BytesUsed(events)
  {
    if events != [] {
      BytesAreConserved(s, events[..|events| - 1]);
    }
  }

  /** After a plan renewal with a quota, whatever was used before it, the bytes left are the quota
      plus later top-ups minus later traffic, over any run. */
  lemma PlanQuotaIsExact(s: Sub, r: Request, now: int, events: seq<Event>)
    requires r.kind == Plan && r.plan.Some? && r.plan.value.volumeBytes > 0 && s.used >= 0
    requires Apply(s, r, now).Some? && TopUpsOnly(events)
    ensures
      var first := Apply(s, r, now).value;
      var end := Run(first, events);
      end.volume - end.used == r.plan.value.volumeBytes + BytesAdded(first, events) - BytesUsed(events)
  {
    BytesAreConserved(Apply(s, r, now).value, events);
  }

  /** What has no cap is never given one by a volume or time renewal. */
  lemma {:induction false} UncappedStaysUncapped(s: Sub, events: seq<Event>)
    requires forall i :: 0 <= i < |events| ==> (events[i].Renew? ==> events[i].r.kind != Plan)
    ensures s.endsAt.None? ==> Run(s, events).endsAt.None?
    ensures s.volume == 0 ==> Run(s, events).volume == 0
  {
    if events != [] {
      UncappedStaysUncapped(s, events[..|events| - 1]);
    }
  }

  // ── What a renewal leaves behind ──────────────────────────────────────────────────────────

  predicate Running(s: Sub, now: int) { s.endsAt.None? || s.endsAt.value > now }

  /** A served renewal leaves the service active again and its time running exactly when more days
      come in than are overdrawn, a plan is there to start afresh, or time was running already. */
  lemma RunningIff(s: Sub, r: Request, now: int)
    requires Apply(s, r, now).Some?
    ensures
      var t := Apply(s, r, now).value;
      && t.status != Expired
      && (Running(t, now) <==>
            || s.endsAt.None?
            || (r.kind == Time && AddedDays(r) * DAY > -Remaining(s, now))
            || (r.kind == Plan && r.plan.Some?)
            || (r.kind != Time && Running(s, now)))
  {
  }

  /** Nothing more is accepted until the panel has taken it. */
  lemma RefusedUntilDelivered(s: Sub, r: Request, now: int, q: Request, later: int)
    requires Apply(s, r, now).Some?
    ensures Apply(Apply(s, r, now).value, q, later).None?
    ensures Apply(s, r, now).value.attempts == 0 && Apply(s, r, now).value.attemptedAt.None?
  {
  }

  /** Serving a renewal brings an expired service back and changes no other status; usage is not
      touched, and the row is queued for the panel anew. */
  lemma ServedStatus(s: Sub, r: Request, now: int)
    requires Apply(s, r, now).Some?
    ensures
      var t := Apply(s, r, now).value;
      && t.status == (if s.status == Expired then Active else s.status)
      && t.used == s.used && t.version == s.version + 1
      && t.pending && t.error.None? && t.attempts == 0 && t.attemptedAt.None?
  {
  }

  /** Exactly which requests are served. */
  lemma ServedIff(s: Sub, r: Request, now: int)
    ensures Apply(s, r, now).Some? <==>
      && !s.pending && r.mapped
      && match r.kind
         case Volume => s.endsAt.None? || s.endsAt.value > now
         case Time => s.status != PendingActivation
         case Plan => s.status != PendingActivation
         case Unknown => false
  {
  }

  /** A plan renewal starts the plan afresh; a plan without a quota or a duration gives none, and a
      plan that was not found leaves the limits as they were. */
  lemma PlanStartsAfresh(s: Sub, r: Request, now: int)
    requires r.kind == Plan && Apply(s, r, now).Some?
    ensures
      var t := Apply(s, r, now).value;
      match r.plan
      case None => (t.startsAt, t.endsAt, t.volume) == (s.startsAt, s.endsAt, s.volume)
      case Some(p) =>
        && t.startsAt == Some(now)
        && (p.durationDays > 0 ==> t.endsAt == Some(now + 86_400_000_000 * p.durationDays))
        && (p.durationDays <= 0 ==> t.endsAt.None?)
        && (p.volumeBytes > 0 ==> t.volume == s.used + p.volumeBytes)
        && (p.volumeBytes <= 0 ==> t.volume == 0)
  {
  }

  /** `whole` is `x` without its fraction. */
  predicate IsTruncated(whole: int, x: real) {
    var fraction := x - whole as real;
    if x >= 0.0 then 0.0 <= fraction < 1.0 else -1.0 < fraction <= 0.0
  }

  /** Top-ups keep the start; each touches its own limit only, in whole bytes of 2^30 a gigabyte, or in
      whole days, and never caps what has no cap. */
  lemma TopUpLimits(s: Sub, r: Request, now: int)
    requires (r.kind == Volume || r.kind == Time) && Apply(s, r, now).Some?
    ensures
      var t := Apply(s, r, now).value;
      && t.startsAt == s.startsAt
      && (r.kind == Volume ==>
            && t.endsAt == s.endsAt
            && if s.volume <= 0 then t.volume == s.volume
               else IsTruncated(t.volume - s.volume, r.amount * 1_073_741_824.0))
      && (r.kind == Time ==>
            && t.volume == s.volume
            && (s.endsAt.None? ==> t.endsAt.None?)
            && (s.endsAt.Some? ==>
                  && t.endsAt.Some?
                  && var added := t.endsAt.value - (if s.endsAt.value < now then now else s.endsAt.value);
                     && added % 86_400_000_000 == 0
                     && IsTruncated(added / 86_400_000_000, r.amount)))
  {
  }
}
