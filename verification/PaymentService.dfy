/** services/payment.py on the rows it updates: each method assigns the same columns in the same
    order as the source, and is proved equal to its function in `Settlement`. */
module PaymentService {
  import opened Options
  import opened Wallets
  import opened Discounts
  import opened Settlement
  import SettlementRuns

  class Payment {
    const invoice: Invoice
    var status: Status
    var actuallyPaid: Option<int>
    var payload: Payload

    constructor (invoice: Invoice, status: Status, payload: Payload)
      ensures this.invoice == invoice && Row() == PaymentRow(status, None, payload)
    {
      this.invoice, this.status, actuallyPaid, this.payload := invoice, status, None, payload;
    }

    function Row(): PaymentRow
      reads this
    {
      PaymentRow(status, actuallyPaid, payload)
    }
  }

  /** The rows of the other tables that one payment's deliveries write. */
  class Records {
    var orders: seq<OrderStatus>
    var claimed: bool
    var plans: nat
    var subscriptions: nat
    var renewals: nat
    var codeUses: nat
    const code: DiscountCode

    constructor (code: DiscountCode)
      ensures this.code == code && orders == [] && !claimed && plans == subscriptions == renewals == codeUses == 0
    {
      this.code := code;
      orders, claimed, plans, subscriptions, renewals, codeUses := [], false, 0, 0, 0, 0;
    }

    function Row(): Desk
      reads this, code
    {
      Desk(orders, claimed, plans, subscriptions, renewals, code.Row(), codeUses)
    }

    method Fulfil(invoice: Invoice)
      modifies this
      ensures Row() == Settlement.Fulfil(invoice, old(Row()))
    {
      if invoice.kind == DirectRenewal {
        renewals := renewals + 1;
      } else {
        subscriptions := subscriptions + 1;
      }
    }
  }

  function WorldOf(p: Payment, w: Wallet, r: Records): World
    reads p, w, r, r.code
  {
    World(p.Row(), w.Row(), r.Row())
  }

  method CreditWallet(p: Payment, w: Wallet, r: Records, o: Outcome) returns (settled: bool)
    modifies p, w, r
    ensures (WorldOf(p, w, r), settled) == Settle(p.invoice, old(WorldOf(p, w, r)), o)
  {
    hide Post;
    if p.actuallyPaid.None? {
      if p.invoice.manualCrypto {
        if !o.claimOk {
          return false;
        }
        r.claimed := true;
      }
      var ok := w.ProcessTransaction(o.amount, Deposit, Credit, Some(p.invoice.id), o.creditOk);
      if !ok {
        return false;
      }
      p.status := Finished;
      p.actuallyPaid := Some(o.amount);
    } else {
      p.status := Finished;
    }
    return true;
  }

  /** `begin_nested`: an exception in either call undoes the debit and leaves `false`. */
  method DebitAndFulfil(p: Payment, w: Wallet, r: Records, o: Outcome) returns (ok: bool)
    modifies p, w, r
    ensures ok == ChargeAndFulfil(p.invoice, old(WorldOf(p, w, r)), o).Some?
    ensures WorldOf(p, w, r) ==
            if ok then ChargeAndFulfil(p.invoice, old(WorldOf(p, w, r)), o).value else old(WorldOf(p, w, r))
  {
    if !p.payload.walletDebited {
      var savepoint := w.Row();
      ok := w.ProcessTransaction(p.invoice.Cost(), ChargeKind(p.invoice), Debit, Some(p.invoice.id), o.debitOk);
      if ok && !o.fulfilOk {
        w.RollbackTo(savepoint);
        ok := false;
      }
      if ok {
        r.Fulfil(p.invoice);
        p.payload := p.payload.(walletDebited := true);
      }
    } else {
      ok := o.fulfilOk;
      if ok {
        r.Fulfil(p.invoice);
      }
    }
  }

  /** The exception handler: refund what was debited unless that was done before, then mark. */
  method RefundAndMark(p: Payment, w: Wallet, r: Records, o: Outcome) returns (refunded: bool)
    modifies p, w
    ensures (WorldOf(p, w, r), refunded) == Settlement.RefundAndMark(p.invoice, old(WorldOf(p, w, r)), o)
  {
    var wasDebited := p.payload.walletDebited;
    refunded := !wasDebited || p.status == Refunded || p.payload.refundCompleted;
    if wasDebited && p.status != Refunded && !p.payload.refundCompleted {
      refunded := w.ProcessTransaction(p.invoice.Cost(), Kind.Refund, Credit, Some(p.invoice.id), o.refundOk);
    }
    if refunded {
      p.payload := p.payload.(walletDebited := false, refundCompleted := true);
      p.status := Refunded;
    } else {
      p.payload := p.payload.(walletDebited := true, needsManualRefund := true);
    }
  }

  method ResolvePlanRow(p: Payment, w: Wallet, r: Records, o: Outcome) returns (found: bool)
    modifies p, r
    ensures (WorldOf(p, w, r), found) == ResolvePlan(p.invoice, old(WorldOf(p, w, r)), o)
  {
    if p.payload.planKnown {
      return o.planFound;
    }
    if p.invoice.customPurchase && o.customOk {
      r.plans := r.plans + 1;
      p.payload := p.payload.(planKnown := true);
      return true;
    }
    return false;
  }

  method ConsumeDiscount(p: Payment, w: Wallet, r: Records, o: Outcome)
    modifies p, r, r.code
    ensures WorldOf(p, w, r) == ConsumeCode(p.invoice, old(WorldOf(p, w, r)), o)
  {
    if p.invoice.hasDiscount && !p.payload.discountConsumed && o.codeFound {
      if o.codeLocked {
        var used := r.code.UseCode(o.clock, None);
        if used {
          r.codeUses := r.codeUses + 1;
        }
      }
      p.payload := p.payload.(discountConsumed := true);
    }
  }

  method EnsureOrder(p: Payment, w: Wallet, r: Records, o: Outcome) returns (order: nat)
    modifies p, r
    ensures WorldOf(p, w, r) == OpenOrder(old(WorldOf(p, w, r)), o)
    ensures order < |r.orders| && p.payload.orderId == Some(order)
  {
    if o.orderFound && p.payload.orderId.Some? && p.payload.orderId.value < |r.orders| {
      return p.payload.orderId.value;
    }
    order := |r.orders|;
    r.orders := r.orders + [Processing];
    p.payload := p.payload.(orderId := Some(order));
  }

  method FinishPurchase(p: Payment, w: Wallet, r: Records, order: nat)
    requires order < |r.orders| && p.payload.orderId == Some(order)
    modifies p, r
    ensures WorldOf(p, w, r) == MarkProvisioned(old(WorldOf(p, w, r)))
  {
    r.orders := r.orders[order := Provisioned];
    p.payload := p.payload.(provisioned := true);
  }

  method AbandonPurchase(p: Payment, w: Wallet, r: Records, order: nat, o: Outcome)
    requires order < |r.orders| && p.payload.orderId == Some(order)
    modifies p, w, r
    ensures WorldOf(p, w, r) == FailPurchase(p.invoice, old(WorldOf(p, w, r)), o)
  {
    var refunded := RefundAndMark(p, w, r, o);
    r.orders := r.orders[order := if refunded then OrderRefunded else FailedNeedsManualRefund];
    p.payload := p.payload.(provisioningFailed := true);
  }

  method ProvisionOrRefund(p: Payment, w: Wallet, r: Records, order: nat, o: Outcome) returns (ok: bool)
    requires order < |r.orders| && p.payload.orderId == Some(order)
    modifies p, w, r
    ensures (WorldOf(p, w, r), ok) == TryProvision(p.invoice, old(WorldOf(p, w, r)), o)
  {
    ghost var before := WorldOf(p, w, r);
    ok := DebitAndFulfil(p, w, r, o);
    assert p.payload.orderId == before.row.payload.orderId && r.orders == before.desk.orders;
    if ok {
      FinishPurchase(p, w, r, order);
    } else {
      AbandonPurchase(p, w, r, order, o);
    }
  }

  method HandleDirectPurchase(p: Payment, w: Wallet, r: Records, o: Outcome) returns (answer: Answer)
    requires p.invoice.kind == DirectPurchase
    modifies p, w, r, r.code
    ensures (WorldOf(p, w, r), answer) == HandlePurchase(p.invoice, old(WorldOf(p, w, r)), o)
  {
    if !o.userFound {
      return Returned(false);
    }
    var found := ResolvePlanRow(p, w, r, o);
    if !found {
      return Returned(false);
    }
    ConsumeDiscount(p, w, r, o);
    var order := EnsureOrder(p, w, r, o);
    if !o.preflightOk {
      return Returned(false);
    }
    var ok := ProvisionOrRefund(p, w, r, order, o);
    return if o.closeOk then Returned(ok) else Raised;
  }

  method ApplyDirectRenewalLocked(p: Payment, w: Wallet, r: Records, o: Outcome) returns (answer: Answer)
    modifies p, w, r
    ensures (WorldOf(p, w, r), answer) == ApplyLocked(p.invoice, old(WorldOf(p, w, r)), o)
  {
    var ok := DebitAndFulfil(p, w, r, o);
    if !ok {
      var refunded := RefundAndMark(p, w, r, o);
      p.payload := p.payload.(renewalFailed := true);
      return Returned(false);
    }
    return if o.closeOk then Returned(true) else Raised;
  }

  method HandleDirectRenewal(p: Payment, w: Wallet, r: Records, o: Outcome) returns (answer: Answer)
    modifies p, w, r
    ensures (WorldOf(p, w, r), answer) == HandleRenewal(p.invoice, old(WorldOf(p, w, r)), o)
  {
    if !p.invoice.hasMeta || !o.lockOk || !o.subFound {
      return Returned(false);
    }
    if !o.subRenewable {
      p.payload := p.payload.(renewalRefused := true);
      return if o.closeOk then Returned(false) else Raised;
    }
    if !o.preflightOk {
      return Returned(false);
    }
    answer := ApplyDirectRenewalLocked(p, w, r, o);
  }

  method ProcessSuccessfulPayment(p: Payment, w: Wallet, r: Records, o: Outcome) returns (answer: Answer)
    modifies p, w, r, r.code
    ensures (WorldOf(p, w, r), answer) == Deliver(p.invoice, old(WorldOf(p, w, r)), o)
  {
    hide Settle, HandlePurchase, HandleRenewal;
    var settled := CreditWallet(p, w, r, o);
    if !settled {
      return Raised;
    }
    if p.invoice.kind == DirectPurchase {
      if p.payload.provisioned {
        return Returned(true);
      }
      answer := HandleDirectPurchase(p, w, r, o);
      if answer != Returned(true) {
        return Returned(false);
      }
      p.payload := p.payload.(provisioned := true);
    } else if p.invoice.kind == DirectRenewal {
      if p.payload.renewalApplied {
        return Returned(true);
      }
      if p.payload.renewalRefused {
        return Returned(false);
      }
      answer := HandleDirectRenewal(p, w, r, o);
      if answer != Returned(true) {
        return Returned(false);
      }
      p.payload := p.payload.(renewalApplied := true);
    }
    return Returned(true);
  }

  /** A gateway review once the provider has answered "paid" (here for TetraPay and Tronado). When the
      follow-up is done nothing but the status changes; otherwise it is one delivery, and the books
      are kept exactly when that does not leave a renewal unmarked. */
  method ReviewPaid(p: Payment, w: Wallet, r: Records, o: Outcome, ghost opening: int) returns (processed: bool)
    requires SettlementRuns.Inv(p.invoice, WorldOf(p, w, r), opening)
    modifies p, w, r, r.code
    ensures processed == !AlreadyProcessed(p.invoice, old(WorldOf(p, w, r)))
    ensures
      var reported := SettlementRuns.Step(p.invoice, old(WorldOf(p, w, r)), SettlementRuns.StatusReport(Finished));
      && WorldOf(p, w, r) == (if processed then Deliver(p.invoice, reported, o).0 else reported)
      && (!processed ==> SettlementRuns.Inv(p.invoice, WorldOf(p, w, r), opening))
      && (processed && o.commit ==>
            (SettlementRuns.Inv(p.invoice, WorldOf(p, w, r), opening)
             <==> !SettlementRuns.RenewalUnmarked(p.invoice, reported, o)))
  {
    hide Deliver, SettlementRuns.Inv, SettlementRuns.RenewalUnmarked;
    ghost var before := WorldOf(p, w, r);
    p.status := Finished;
    ghost var reported := WorldOf(p, w, r);
    assert reported == SettlementRuns.Step(p.invoice, before, SettlementRuns.StatusReport(Finished));
    SettlementRuns.ForeignKeeps(p.invoice, before, SettlementRuns.StatusReport(Finished), opening);
    if p.actuallyPaid.Some? && (
         || (p.invoice.kind == DirectPurchase && p.payload.provisioned)
         || (p.invoice.kind == DirectRenewal && (p.payload.renewalApplied || p.payload.renewalRefused))
         || p.invoice.kind == Other)
    {
      return false;
    }
    SettlementRuns.DeliveryKeepsIff(p.invoice, reported, o, opening);
    var answer := ProcessSuccessfulPayment(p, w, r, o);
    return true;
  }
}
