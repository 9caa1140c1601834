/** What one delivery does, case by case: every law is read off the invoice, the stored rows and the
    answers of the outside, and says exactly when it happens. */
module SettlementLaws {
  import opened Options
  import opened Wallets
  import opened Discounts
  import opened Settlement

  /** The credit goes through once per payment, for what was paid, and after the claim if there is one. */
  lemma CreditIff(v: Invoice, w: World, o: Outcome)
    ensures
      var (w1, settled) := Settle(v, w, o);
      var first := w.row.actuallyPaid.None?;
      var through :=
        && (!v.manualCrypto || o.claimOk) && o.creditOk && o.amount > 0
        && forall i :: 0 <= i < |w.account.ledger| && w.account.ledger[i].cause == Some(v.id) ==>
                         w.account.ledger[i].kind != Deposit || w.account.ledger[i].direction != Credit;
      && (settled <==> !first || through)
      && w1.row == PaymentRow(if settled then Finished else w.row.status,
                              if first && through then Some(o.amount) else w.row.actuallyPaid, w.row.payload)
      && w1.account.balance == w.account.balance + (if first && through then o.amount else 0)
      && w1.account.ledger == w.account.ledger + (
           if first && through then
             [LedgerRow(Deposit, Credit, o.amount, w.account.balance, w1.account.balance, Some(v.id))] else [])
      && w1.desk == w.desk.(claimed := w.desk.claimed || (first && v.manualCrypto && o.claimOk))
  {
  }

  /** What the savepoint takes: a renewal with a total of its own pays that, not the part that went
      through the gateway. Debit and fulfilment appear together or not at all. */
  lemma SavepointIff(v: Invoice, w: World, o: Outcome)
    ensures
      var renewal := v.kind == DirectRenewal;
      var sum := if renewal && v.renewCost.Some? && v.renewCost.value != 0 then v.renewCost.value else v.price;
      var due := !w.row.payload.walletDebited;
      var r := ChargeAndFulfil(v, w, o);
      && (r.Some? <==> o.fulfilOk && (due ==> o.debitOk && 0 < sum <= w.account.balance + w.account.creditLimit))
      && (r.Some? ==>
            var w1 := r.value;
            && w1.account.balance == w.account.balance - (if due then sum else 0)
            && w1.account.ledger == w.account.ledger + (
                 if due then
                   [LedgerRow(if renewal then RenewalCharge else Purchase, Debit, sum,
                              w.account.balance, w1.account.balance, Some(v.id))] else [])
            && w1.row == w.row.(payload := w.row.payload.(walletDebited := true))
            && w1.desk == w.desk.(renewals := w.desk.renewals + (if renewal then 1 else 0),
                                  subscriptions := w.desk.subscriptions + (if renewal then 0 else 1)))
  {
  }

  /** The handler pays back what was debited unless a refund is on record. */
  lemma RefundIff(v: Invoice, w: World, o: Outcome)
    ensures
      var renewal := v.kind == DirectRenewal;
      var sum := if renewal && v.renewCost.Some? && v.renewCost.value != 0 then v.renewCost.value else v.price;
      var p := w.row.payload;
      var owed := p.walletDebited && w.row.status != Refunded && !p.refundCompleted;
      var (w1, refunded) := RefundAndMark(v, w, o);
      && (refunded <==> (owed ==> o.refundOk && sum > 0))
      && w1.account.balance == w.account.balance + (if owed && refunded then sum else 0)
      && w1.account.ledger == w.account.ledger + (
           if owed && refunded then
             [LedgerRow(Kind.Refund, Credit, sum, w.account.balance, w1.account.balance, Some(v.id))] else [])
  {
    hide MarkCompensated;
  }

  /** Its marks say whether the customer has the money: the payment is refunded and no longer debited,
      or still debited and a case for a manual refund. */
  lemma RefundMarks(v: Invoice, w: World, o: Outcome)
    ensures
      var p := w.row.payload;
      var (w1, refunded) := RefundAndMark(v, w, o);
      && w1.row == PaymentRow(
           if refunded then Refunded else w.row.status, w.row.actuallyPaid,
           p.(walletDebited := !refunded, refundCompleted := refunded || p.refundCompleted,
              needsManualRefund := !refunded || p.needsManualRefund))
      && w1.desk == w.desk
  {
    hide Post;
  }

  /** A payment asks for its code's slot once, and gets it when the locked code is live; no plan is named. */
  lemma CodeSlotIff(v: Invoice, w: World, o: Outcome)
    ensures
      var c := w.desk.code;
      var asked := v.hasDiscount && !w.row.payload.discountConsumed && o.codeFound;
      var live := c.active && c.used < c.maxUses && (c.expiresAt.Some? ==> o.clock <= c.expiresAt.value);
      var got := asked && o.codeLocked && live;
      var w1 := ConsumeCode(v, w, o);
      && w1.row == w.row.(payload := w.row.payload.(discountConsumed := w.row.payload.discountConsumed || asked))
      && w1.account == w.account
      && w1.desk == w.desk.(codeUses := if got then w.desk.codeUses + 1 else w.desk.codeUses,
                            code := if got then c.(used := c.used + 1, active := c.used + 1 < c.maxUses) else c)
  {
  }

  /** The plan: named by the invoice and found, or a custom one created once. */
  lemma PlanIff(v: Invoice, w: World, o: Outcome)
    ensures
      var known := w.row.payload.planKnown;
      var created := !known && v.customPurchase && o.customOk;
      var (w1, planned) := ResolvePlan(v, w, o);
      && (planned <==> (known && o.planFound) || created)
      && w1 == World(w.row.(payload := w.row.payload.(planKnown := known || created)), w.account,
                     w.desk.(plans := w1.desk.plans))
      && w1.desk.plans == w.desk.plans + (if created then 1 else 0)
  {
  }

  /** The order: the stored one if it is found, otherwise a new one in processing. */
  lemma OrderIff(w: World, o: Outcome)
    ensures
      var id := w.row.payload.orderId;
      var kept := o.orderFound && id.Some? && id.value < |w.desk.orders|;
      var w1 := OpenOrder(w, o);
      && w1.row == w.row.(payload := w.row.payload.(orderId := if kept then id else Some(|w.desk.orders|)))
      && w1.account == w.account
      && w1.desk == w.desk.(orders := if kept then w.desk.orders else w.desk.orders + [Processing])
  {
  }

  /** The three preparations of a purchase. */
  function Prepared(v: Invoice, w: World, o: Outcome): (r: World)
    ensures HasOrder(r)
  {
    OpenOrder(ConsumeCode(v, ResolvePlan(v, w, o).0, o), o)
  }

  lemma NoPlanNoChange(v: Invoice, w: World, o: Outcome)
    ensures
      var (w1, planned) := ResolvePlan(v, w, o);
      && (planned <==> if w.row.payload.planKnown then o.planFound else v.customPurchase && o.customOk)
      && (!planned ==> w1 == w)
  {
  }

  /** A purchase without a user changes nothing, without a plan at most nothing else; it waits for the
      preflight check with everything prepared, and otherwise ends with the savepoint's verdict. */
  lemma PurchaseAnswers(v: Invoice, w: World, o: Outcome)
    ensures
      var ready := o.userFound && (if w.row.payload.planKnown then o.planFound else v.customPurchase && o.customOk);
      var (w1, answer) := HandlePurchase(v, w, o);
      if !ready then w1 == w && answer == Returned(false)
      else if !o.preflightOk then w1 == Prepared(v, w, o) && answer == Returned(false)
      else
        var (w2, ok) := TryProvision(v, Prepared(v, w, o), o);
        w1 == w2 && answer == if o.closeOk then Returned(ok) else Raised
  {
    NoPlanNoChange(v, w, o);
    hide ResolvePlan, ConsumeCode, OpenOrder, TryProvision;
  }

  /** At the savepoint a purchase ends with its own order provisioned and a subscription, or with the
      order given up, no subscription, and the money where the refund leaves it. */
  lemma PurchaseVerdict(v: Invoice, w: World, o: Outcome)
    requires v.kind == DirectPurchase && HasOrder(w)
    ensures
      var (w1, ok) := TryProvision(v, w, o);
      var i := w.row.payload.orderId.value;
      var debited := w.row.payload.walletDebited;
      var covered := debited || (o.debitOk && 0 < v.price <= w.account.balance + w.account.creditLimit);
      && (ok <==> o.fulfilOk && covered)
      && w1.desk.subscriptions == w.desk.subscriptions + (if ok then 1 else 0)
      && (ok ==>
            && w1.row == w.row.(payload := w.row.payload.(walletDebited := true, provisioned := true))
            && w1.desk.orders == w.desk.orders[i := Provisioned])
      && (!ok ==>
            var (refund, returned) := RefundAndMark(v, w, o);
            && w1.account == refund.account
            && w1.row == refund.row.(payload := refund.row.payload.(provisioningFailed := true))
            && w1.desk.orders == w.desk.orders[i := if returned then OrderRefunded else FailedNeedsManualRefund])
  {
    SavepointIff(v, w, o);
    hide Post, ChargeAndFulfil, RefundAndMark;
  }

  /** Under the lock a renewal ends renewed, or given up with the money where the refund leaves it. */
  lemma LockedVerdict(v: Invoice, w: World, o: Outcome)
    requires v.kind == DirectRenewal
    ensures
      var sum := if v.renewCost.Some? && v.renewCost.value != 0 then v.renewCost.value else v.price;
      var debited := w.row.payload.walletDebited;
      var covered := debited || (o.debitOk && 0 < sum <= w.account.balance + w.account.creditLimit);
      var renewed := o.fulfilOk && covered;
      var (w1, answer) := ApplyLocked(v, w, o);
      && w1.desk.renewals == w.desk.renewals + (if renewed then 1 else 0)
      && (renewed ==> w1.row == w.row.(payload := w.row.payload.(walletDebited := true)))
      && (!renewed ==>
            var refund := RefundAndMark(v, w, o).0;
            w1 == refund.(row := refund.row.(payload := refund.row.payload.(renewalFailed := true))))
      && answer == if renewed && !o.closeOk then Raised else Returned(renewed)
  {
    SavepointIff(v, w, o);
    hide Post, ChargeAndFulfil, RefundAndMark;
  }

  /** A renewal is put off with nothing changed, refused for good when the service cannot be renewed,
      and otherwise tried under the lock. */
  lemma RenewalAnswers(v: Invoice, w: World, o: Outcome)
    ensures
      var found := v.hasMeta && o.lockOk && o.subFound;
      var tried := found && o.subRenewable && o.preflightOk;
      var refused := found && !o.subRenewable;
      var (w1, answer) := HandleRenewal(v, w, o);
      && (tried ==> (w1, answer) == ApplyLocked(v, w, o))
      && (refused ==>
            && w1 == w.(row := w.row.(payload := w.row.payload.(renewalRefused := true)))
            && answer != Returned(true))
      && (!tried && !refused ==> w1 == w && answer == Returned(false))
  {
    hide ApplyLocked;
  }

  /** What the whole delivery answers, and that what was decided before is not tried again. A raised
      credit leaves the caller an exception; every later failure is a plain no. */
  lemma DeliveryAnswers(v: Invoice, w: World, o: Outcome)
    ensures
      var (w1, settled) := Settle(v, w, o);
      var p := w1.row.payload;
      var (end, answer) := Deliver(v, w, o);
      && (answer == Raised <==> !settled)
      && (!settled ==> end == w1)
      && (settled ==>
            match v.kind
            case Other => end == w1 && answer == Returned(true)
            case DirectPurchase =>
              if p.provisioned then end == w1 && answer == Returned(true)
              else
                var (w2, verdict) := HandlePurchase(v, w1, o);
                && (answer == Returned(true) <==> verdict == Returned(true))
                && end == w2.(row := w2.row.(payload := w2.row.payload.(
                            provisioned := w2.row.payload.provisioned || verdict == Returned(true))))
            case DirectRenewal =>
              if p.renewalApplied || p.renewalRefused then end == w1 && answer == Returned(p.renewalApplied)
              else
                var (w2, verdict) := HandleRenewal(v, w1, o);
                && (answer == Returned(true) <==> verdict == Returned(true))
                && end == w2.(row := w2.row.(payload := w2.row.payload.(
                            renewalApplied := w2.row.payload.renewalApplied || verdict == Returned(true)))))
  {
    hide Settle, HandlePurchase, HandleRenewal;
  }
}
