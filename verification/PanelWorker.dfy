/** The outbox consumer's work on one row it has locked (apps/worker/jobs/panel_sync.py), against
    the X-UI client that takes the absolute limits. */
module PanelWorker {
  import opened Options
  import opened Renewals
  import opened Outbox

  /** How the panel call ends; a call may raise after the panel has taken the write. */
  datatype CallOutcome = Returned | RaisedBefore(error: string) | RaisedAfter(error: string)

  class PanelClient {
    var quota: int
    var expiryMs: int

    constructor (p: Panel)
      ensures Limits() == p
    {
      quota, expiryMs := p.quota, p.expiryMs;
    }

    function Limits(): Panel
      reads this
    {
      Panel(quota, expiryMs)
    }

    /** `expiry == None`: the field is left out of the patch. */
    method PatchClient(totalGb: int, expiry: Option<int>)
      modifies this
      ensures Limits() == Panel(totalGb, if expiry.Some? then expiry.value else old(expiryMs))
    {
      quota := totalGb;
      if expiry.Some? {
        expiryMs := expiry.value;
      }
    }
  }

  /** Delivered exactly when the call returns; then the panel has the row's limits. Otherwise the
      marker stays, and the limits that a failed call may have left on the panel are the row's too. */
  method DeliverPanelState(sub: Subscription, panel: PanelClient, now: int, outcome: CallOutcome)
    returns (delivered: bool)
    requires sub.pending
    modifies sub, panel
    ensures delivered == (!TooEarly(old(sub.Row()), now) && outcome.Returned?)
    ensures delivered ==>
      sub.Row() == MarkDelivered(Attempt(old(sub.Row()), now)) && panel.Limits() == Push(old(panel.Limits()), sub.Row())
    ensures TooEarly(old(sub.Row()), now) ==> sub.Row() == old(sub.Row()) && panel.Limits() == old(panel.Limits())
    ensures !TooEarly(old(sub.Row()), now) && !delivered ==>
      && sub.Row() == MarkFailed(Attempt(old(sub.Row()), now), outcome.error)
      && panel.Limits() == if outcome.RaisedAfter? then Push(old(panel.Limits()), sub.Row()) else old(panel.Limits())
  {
    if sub.attemptedAt.Some? {
      if sub.attemptedAt.value + Backoff(sub.attempts) * SECOND > now {
        return false;
      }
    }
    sub.attemptedAt := Some(now);
    sub.attempts := sub.attempts + 1;
    if !outcome.RaisedBefore? {
      var expiry := if sub.endsAt.Some? then sub.endsAt.value / 1000 else 0;
      panel.PatchClient(sub.volume, if sub.status == PendingActivation then None else Some(expiry));
    }
    sub.version := sub.version + 1;
    if !outcome.Returned? {
      sub.error := Some(outcome.error);
      return false;
    }
    sub.pending := false;
    sub.error := None;
    return true;
  }
}
