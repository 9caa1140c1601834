/** What every run of deliveries of one payment keeps. */
module SettlementRuns {
  import opened Options
  import opened Wallets
  import opened Discounts
  import opened Settlement

  /** Between two deliveries anybody else may post to the same wallet, providers and gateway reviews may
      overwrite the status text, and other payments may use the same discount code. */
  datatype Action =
    | Delivery(o: Outcome)
    | ForeignPosting(amount: int, kind: Kind, direction: Direction, cause: Option<nat>, dbOk: bool)
    | StatusReport(status: Status)
    | ForeignCodeUse(clock: int, plan: Option<nat>)

  /** A delivery whose caller does not commit leaves nothing behind. */
  function Step(v: Invoice, w: World, a: Action): World {
    match a
    case Delivery(o) => if o.commit then Deliver(v, w, o).0 else w
    case ForeignPosting(amount, kind, direction, cause, dbOk) =>
      if cause == Some(v.id) then w
      else
        var posted := Post(w.account, amount, kind, direction, cause, dbOk);
        if posted.None? then w else w.(account := posted.value)
    case StatusReport(s) => w.(row := w.row.(status := s))
    case ForeignCodeUse(clock, plan) => w.(desk := w.desk.(code := Use(w.desk.code, clock, plan).0))
  }

  function Run(v: Invoice, w: World, actions: seq<Action>): World
    decreases |actions|
  {
    if actions == [] then w else Run(v, Step(v, w, actions[0]), actions[1..])
  }

  const CHARGES: set<Kind> := {Purchase, RenewalCharge}

  ghost function PaidIn(w: World): int { if w.row.actuallyPaid.Some? then w.row.actuallyPaid.value else 0 }

  ghost function Bit(b: bool): nat { if b then 1 else 0 }

  predicate Delivered(v: Invoice, w: World) {
    (v.kind == DirectPurchase && w.row.payload.provisioned) || (v.kind == DirectRenewal && w.row.payload.renewalApplied)
  }

  /** Conservation: this payment moved the deposit in, once, and the cost out exactly while
      `wallet_debited` holds; charges outnumber refunds by exactly that one. */
  ghost predicate MoneyConserved(v: Invoice, w: World) {
    var mine := Some(v.id);
    && NetOf(w.account.ledger, mine) == PaidIn(w) - (if w.row.payload.walletDebited then v.Cost() else 0)
    && CountOf(w.account.ledger, mine, {Deposit}) == Bit(w.row.actuallyPaid.Some?)
    && CountOf(w.account.ledger, mine, CHARGES)
       == CountOf(w.account.ledger, mine, {Kind.Refund}) + Bit(w.row.payload.walletDebited)
  }

  /** Exactly-once fulfilment: what was brought about is what the flags say, a delivered payment
      has its one debit, and the one provisioned order is its own. */
  ghost predicate FulfilledOnce(v: Invoice, w: World) {
    var p := w.row.payload;
    && w.desk.subscriptions == Bit(v.kind == DirectPurchase && p.provisioned)
    && w.desk.renewals == Bit(v.kind == DirectRenewal && p.renewalApplied)
    && (Delivered(v, w) ==> p.walletDebited)
    && (p.walletDebited ==> w.row.actuallyPaid.Some?)
    && (forall i :: 0 <= i < |w.desk.orders| ==>
          (w.desk.orders[i] == Provisioned ==> p.provisioned && p.orderId == Some(i)))
    && (v.kind == DirectPurchase && p.provisioned ==>
          p.orderId.Some? && p.orderId.value < |w.desk.orders| && w.desk.orders[p.orderId.value] == Provisioned)
  }

  ghost predicate CodeUsedOnce(w: World) {
    && w.desk.codeUses <= Bit(w.row.payload.discountConsumed)
    && w.desk.plans <= Bit(w.row.payload.planKnown)
    && 0 <= w.desk.code.used <= w.desk.code.maxUses
  }

  /** "Debited, not delivered, refund failed" is allowed; but then no refund may be on record, or
      the handler would take the old one for a new one. */
  ghost predicate NoStaleRefund(v: Invoice, w: World) {
    w.row.payload.walletDebited && !Delivered(v, w) ==> !w.row.payload.refundCompleted
  }

  ghost predicate Inv(v: Invoice, w: World, opening: int) {
    && Chained(opening, w.account.ledger, w.account.balance)
    && MoneyConserved(v, w)
    && FulfilledOnce(v, w)
    && CodeUsedOnce(w)
    && NoStaleRefund(v, w)
  }

  // ── The failing branch ────────────────────────────────────────────────────────────────────

  /** The renewal went through, and then closing the notification session raised: the outer handler
      swallows the exception and `renewal_applied` is never written. */
  ghost predicate RenewalUnmarked(v: Invoice, w: World, o: Outcome) {
    var w1 := Settle(v, w, o).0;
    && o.commit && !o.closeOk
    && v.kind == DirectRenewal && Settle(v, w, o).1
    && !w1.row.payload.renewalApplied && !w1.row.payload.renewalRefused
    && v.hasMeta && o.lockOk && o.subFound && o.subRenewable && o.preflightOk
    && ChargeAndFulfil(v, w1, o).Some?
  }

  // ── One delivery, piece by piece ──────────────────────────────────────────────────────────

  lemma DepositBooks(v: Invoice, a: Account, o: Outcome, opening: int)
    requires Chained(opening, a.ledger, a.balance)
    requires Post(a, o.amount, Deposit, Credit, Some(v.id), o.creditOk).Some?
    ensures
      var mine := Some(v.id);
      var b := Post(a, o.amount, Deposit, Credit, mine, o.creditOk).value;
      && Chained(opening, b.ledger, b.balance)
      && NetOf(b.ledger, mine) == NetOf(a.ledger, mine) + o.amount
      && CountOf(b.ledger, mine, {Deposit}) == CountOf(a.ledger, mine, {Deposit}) + 1
      && CountOf(b.ledger, mine, CHARGES) == CountOf(a.ledger, mine, CHARGES)
      && CountOf(b.ledger, mine, {Kind.Refund}) == CountOf(a.ledger, mine, {Kind.Refund})
  {
    var mine := Some(v.id);
    PostEffect(a, o.amount, Deposit, Credit, mine, o.creditOk, opening, mine, {Deposit});
    PostEffect(a, o.amount, Deposit, Credit, mine, o.creditOk, opening, mine, CHARGES);
    PostEffect(a, o.amount, Deposit, Credit, mine, o.creditOk, opening, mine, {Kind.Refund});
    hide Post, Chained, NetOf, CountOf;
  }

  lemma SettleKeeps(v: Invoice, w: World, o: Outcome, opening: int)
    requires Inv(v, w, opening)
    ensures Inv(v, Settle(v, w, o).0, opening)
    ensures Settle(v, w, o).1 ==> Settle(v, w, o).0.row.actuallyPaid.Some? && Settle(v, w, o).0.row.status == Finished
    ensures Settle(v, w, o).0.row.payload == w.row.payload
  {
    hide Post, Chained, NetOf, CountOf;
    if Post(w.account, o.amount, Deposit, Credit, Some(v.id), o.creditOk).Some? {
      DepositBooks(v, w.account, o, opening);
    }
  }

  /** What the ledger looks like after the savepoint, in terms of before. */
  lemma ChargeBooks(v: Invoice, w: World, o: Outcome, opening: int)
    requires Chained(opening, w.account.ledger, w.account.balance) && MoneyConserved(v, w)
    requires ChargeAndFulfil(v, w, o).Some?
    ensures
      var w1 := ChargeAndFulfil(v, w, o).value;
      && Chained(opening, w1.account.ledger, w1.account.balance) && MoneyConserved(v, w1)
      && w1.row == w.row.(payload := w.row.payload.(walletDebited := true))
      && w1.desk == Fulfil(v, w.desk)
  {
    if !w.row.payload.walletDebited {
      var mine := Some(v.id);
      PostEffect(w.account, v.Cost(), ChargeKind(v), Debit, mine, o.debitOk, opening, mine, {Deposit});
      PostEffect(w.account, v.Cost(), ChargeKind(v), Debit, mine, o.debitOk, opening, mine, CHARGES);
      PostEffect(w.account, v.Cost(), ChargeKind(v), Debit, mine, o.debitOk, opening, mine, {Kind.Refund});
    }
  }

  /** Compensation keeps the books when no stale refund is on record. */
  lemma CompensateBooks(v: Invoice, w: World, o: Outcome, opening: int)
    requires Chained(opening, w.account.ledger, w.account.balance) && MoneyConserved(v, w)
    requires w.row.status == Finished
    requires w.row.payload.walletDebited ==> !w.row.payload.refundCompleted
    ensures
      var (w2, refunded) := RefundAndMark(v, w, o);
      && Chained(opening, w2.account.ledger, w2.account.balance) && MoneyConserved(v, w2)
      && w2.row == MarkCompensated(w.row, refunded) && w2.desk == w.desk
      && (w2.row.payload.walletDebited ==> !w2.row.payload.refundCompleted && w.row.payload.walletDebited)
  {
    var mine := Some(v.id);
    var r := Post(w.account, v.Cost(), Kind.Refund, Credit, mine, o.refundOk);
    if w.row.payload.walletDebited && r.Some? {
      PostEffect(w.account, v.Cost(), Kind.Refund, Credit, mine, o.refundOk, opening, mine, {Deposit});
      PostEffect(w.account, v.Cost(), Kind.Refund, Credit, mine, o.refundOk, opening, mine, CHARGES);
      PostEffect(w.account, v.Cost(), Kind.Refund, Credit, mine, o.refundOk, opening, mine, {Kind.Refund});
    }
    hide Post, Chained, NetOf, CountOf;
  }

  /** Neither the wallet nor the orders nor what was delivered is touched. */
  ghost predicate Aside(w: World, w1: World) {
    && CodeUsedOnce(w1)
    && w1 == World(w.row.(payload := w1.row.payload), w.account,
                   w.desk.(plans := w1.desk.plans, code := w1.desk.code, codeUses := w1.desk.codeUses))
    && w1.row.payload == w.row.payload.(planKnown := w1.row.payload.planKnown,
                                        discountConsumed := w1.row.payload.discountConsumed)
  }

  lemma PlanIsAside(v: Invoice, w: World, o: Outcome)
    requires CodeUsedOnce(w)
    ensures Aside(w, ResolvePlan(v, w, o).0)
    ensures ResolvePlan(v, w, o).0.row.payload.discountConsumed == w.row.payload.discountConsumed
  {
  }

  lemma CodeIsAside(v: Invoice, w: World, o: Outcome)
    requires CodeUsedOnce(w)
    ensures Aside(w, ConsumeCode(v, w, o))
    ensures ConsumeCode(v, w, o).row.payload.planKnown == w.row.payload.planKnown
  {
  }

  lemma AsideKeeps(v: Invoice, w: World, w1: World, opening: int)
    requires Inv(v, w, opening) && Aside(w, w1)
    ensures Inv(v, w1, opening)
  {
    hide Post, Chained, NetOf, CountOf;
  }

  /** Up to the preflight check a purchase touches plan, code and order only. */
  lemma PlanKeeps(v: Invoice, w: World, o: Outcome, opening: int)
    requires Inv(v, w, opening)
    ensures
      var w1 := ResolvePlan(v, w, o).0;
      && Inv(v, w1, opening) && w1.account == w.account
      && w1.row == w.row.(payload := w.row.payload.(planKnown := w1.row.payload.planKnown))
  {
    PlanIsAside(v, w, o);
    hide Inv, ResolvePlan, CodeUsedOnce;
    AsideKeeps(v, w, ResolvePlan(v, w, o).0, opening);
  }

  lemma CodeKeeps(v: Invoice, w: World, o: Outcome, opening: int)
    requires Inv(v, w, opening)
    ensures
      var w1 := ConsumeCode(v, w, o);
      && Inv(v, w1, opening) && w1.account == w.account
      && w1.row == w.row.(payload := w.row.payload.(discountConsumed := w1.row.payload.discountConsumed))
  {
    CodeIsAside(v, w, o);
    hide Inv, ConsumeCode, CodeUsedOnce;
    AsideKeeps(v, w, ConsumeCode(v, w, o), opening);
  }

  lemma OrderKeeps(v: Invoice, w: World, o: Outcome, opening: int)
    requires Inv(v, w, opening) && !w.row.payload.provisioned
    ensures
      var w1 := OpenOrder(w, o);
      && Inv(v, w1, opening) && w1.account == w.account
      && w1.row == w.row.(payload := w.row.payload.(orderId := w1.row.payload.orderId))
  {
    hide Post, Chained, NetOf, CountOf;
    if !OrderUsable(w, o) {
      var p := w.row.payload.(orderId := Some(|w.desk.orders|));
      var d := w.desk.(orders := w.desk.orders + [Processing]);
      var w1 := World(w.row.(payload := p), w.account, d);
      assert OpenOrder(w, o) == w1;
      NoneProvisionedYet(v, w, d.orders);
    }
  }

  lemma NoneProvisionedYet(v: Invoice, w: World, orders: seq<OrderStatus>)
    requires FulfilledOnce(v, w) && !w.row.payload.provisioned && orders == w.desk.orders + [Processing]
    ensures forall i :: 0 <= i < |orders| ==> orders[i] != Provisioned
  {
  }

  lemma ProvisionSucceeds(v: Invoice, w: World, o: Outcome, opening: int)
    requires Inv(v, w, opening) && v.kind == DirectPurchase && !w.row.payload.provisioned
    requires w.row.actuallyPaid.Some?
    requires HasOrder(w)
    requires ChargeAndFulfil(v, w, o).Some?
    ensures Inv(v, TryProvision(v, w, o).0, opening) && TryProvision(v, w, o).0.row.payload.provisioned
  {
    ChargeBooks(v, w, o, opening);
    hide Post, Chained, NetOf, CountOf, ChargeAndFulfil;
  }

  lemma FailedPurchaseKeeps(v: Invoice, w: World, o: Outcome, opening: int)
    requires Inv(v, w, opening) && v.kind == DirectPurchase && !w.row.payload.provisioned
    requires w.row.actuallyPaid.Some? && w.row.status == Finished
    requires HasOrder(w)
    ensures Inv(v, FailPurchase(v, w, o), opening)
  {
    hide Post, Chained, NetOf, CountOf;
    var (w1, refunded) := RefundAndMark(v, w, o);
    assert Inv(v, w1, opening) by {
      CompensateBooks(v, w, o, opening);
      AfterRefund(v, w, w1, refunded, opening);
    }
    var s := if refunded then OrderRefunded else FailedNeedsManualRefund;
    var end := FailPurchase(v, w, o);
    assert end == SetOrder(w1, s).(row := w1.row.(payload := w1.row.payload.(provisioningFailed := true)));
    OrderGivenUp(v, w1, end, s, opening);
  }

  /** The invariant needs from the handler only what `CompensateBooks` says about it. */
  lemma AfterRefund(v: Invoice, w: World, w1: World, refunded: bool, opening: int)
    requires Inv(v, w, opening) && !Delivered(v, w) && w.row.actuallyPaid.Some?
    requires Chained(opening, w1.account.ledger, w1.account.balance) && MoneyConserved(v, w1)
    requires w1.row == MarkCompensated(w.row, refunded) && w1.desk == w.desk
    requires w1.row.payload.walletDebited ==> !w1.row.payload.refundCompleted
    ensures Inv(v, w1, opening) && !Delivered(v, w1)
  {
    hide Post, Chained, NetOf, CountOf;
  }

  lemma OrderGivenUp(v: Invoice, w: World, w1: World, s: OrderStatus, opening: int)
    requires Inv(v, w, opening) && !w.row.payload.provisioned && s != Provisioned
    requires HasOrder(w)
    requires w1 == SetOrder(w, s).(row := w.row.(payload := w.row.payload.(provisioningFailed := true)))
    ensures Inv(v, w1, opening)
  {
    hide Post, Chained, NetOf, CountOf;
  }

  lemma PurchaseKeeps(v: Invoice, w: World, o: Outcome, opening: int)
    requires Inv(v, w, opening) && v.kind == DirectPurchase && !w.row.payload.provisioned
    requires w.row.actuallyPaid.Some? && w.row.status == Finished
    ensures
      var (w1, answer) := HandlePurchase(v, w, o);
      Inv(v, w1, opening) && (answer == Returned(true) ==> w1.row.payload.provisioned)
  {
    hide Inv, ChargeAndFulfil;
    PlanKeeps(v, w, o, opening);
    var w1 := ResolvePlan(v, w, o).0;
    CodeKeeps(v, w1, o, opening);
    OrderKeeps(v, ConsumeCode(v, w1, o), o, opening);
    var w2 := OpenOrder(ConsumeCode(v, w1, o), o);
    if o.userFound && ResolvePlan(v, w, o).1 && o.preflightOk {
      if ChargeAndFulfil(v, w2, o).Some? {
        ProvisionSucceeds(v, w2, o, opening);
      } else {
        FailedPurchaseKeeps(v, w2, o, opening);
      }
    }
  }

  predicate Reaches(v: Invoice, o: Outcome) {
    v.hasMeta && o.lockOk && o.subFound && o.subRenewable && o.preflightOk
  }

  lemma RenewalSucceeds(v: Invoice, w: World, o: Outcome, opening: int)
    requires Inv(v, w, opening) && v.kind == DirectRenewal && !w.row.payload.renewalApplied
    requires w.row.actuallyPaid.Some?
    requires ChargeAndFulfil(v, w, o).Some?
    ensures
      var w1 := ChargeAndFulfil(v, w, o).value;
      && Inv(v, w1.(row := w1.row.(payload := w1.row.payload.(renewalApplied := true))), opening)
      && !w1.row.payload.renewalApplied && w1.desk.renewals == 1
  {
    ChargeBooks(v, w, o, opening);
    hide Post, Chained, NetOf, CountOf, ChargeAndFulfil;
  }

  lemma RenewalFails(v: Invoice, w: World, o: Outcome, opening: int)
    requires Inv(v, w, opening) && v.kind == DirectRenewal && !w.row.payload.renewalApplied
    requires w.row.actuallyPaid.Some? && w.row.status == Finished
    ensures
      var w1 := RefundAndMark(v, w, o).0;
      Inv(v, w1.(row := w1.row.(payload := w1.row.payload.(renewalFailed := true))), opening)
  {
    hide Post, Chained, NetOf, CountOf, Compensate;
    CompensateBooks(v, w, o, opening);
    var (w1, refunded) := RefundAndMark(v, w, o);
    AfterRefund(v, w, w1, refunded, opening);
    RenewalGivenUp(v, w1, opening);
  }

  lemma RenewalGivenUp(v: Invoice, w: World, opening: int)
    requires Inv(v, w, opening)
    ensures Inv(v, w.(row := w.row.(payload := w.row.payload.(renewalFailed := true))), opening)
  {
    hide Post, Chained, NetOf, CountOf;
  }

  lemma RenewalKeeps(v: Invoice, w: World, o: Outcome, opening: int)
    requires Inv(v, w, opening) && v.kind == DirectRenewal && !w.row.payload.renewalApplied
    requires w.row.actuallyPaid.Some? && w.row.status == Finished
    ensures
      var (w1, answer) := HandleRenewal(v, w, o);
      if Reaches(v, o) && ChargeAndFulfil(v, w, o).Some? then
        && (answer == Returned(true) <==> o.closeOk)
        && !w1.row.payload.renewalApplied && w1.desk.renewals == 1
        && Inv(v, w1.(row := w1.row.(payload := w1.row.payload.(renewalApplied := true))), opening)
      else answer != Returned(true) && Inv(v, w1, opening)
  {
    if Reaches(v, o) {
      if ChargeAndFulfil(v, w, o).Some? {
        RenewalSucceeds(v, w, o, opening);
      } else {
        RenewalFails(v, w, o, opening);
      }
    }
  }

  /** The invariant survives a delivery if and only if the delivery is not one that leaves a
      successful renewal unmarked. */
  lemma DeliveryKeepsIff(v: Invoice, w: World, o: Outcome, opening: int)
    requires Inv(v, w, opening)
    ensures Inv(v, Step(v, w, Delivery(o)), opening) <==> !RenewalUnmarked(v, w, o)
  {
    hide Post, Chained, NetOf, CountOf, Settle, ChargeAndFulfil, HandlePurchase, HandleRenewal;
    SettleKeeps(v, w, o, opening);
    var (w1, settled) := Settle(v, w, o);
    if settled && v.kind == DirectPurchase && !w1.row.payload.provisioned {
      PurchaseKeeps(v, w1, o, opening);
    }
    if settled && v.kind == DirectRenewal && !w1.row.payload.renewalApplied {
      RenewalKeeps(v, w1, o, opening);
    }
  }

  lemma ForeignKeeps(v: Invoice, w: World, a: Action, opening: int)
    requires Inv(v, w, opening) && !a.Delivery?
    ensures Inv(v, Step(v, w, a), opening)
  {
    if a.ForeignPosting? && a.cause != Some(v.id) {
      var posted := Post(w.account, a.amount, a.kind, a.direction, a.cause, a.dbOk);
      if posted.Some? {
        PostEffect(w.account, a.amount, a.kind, a.direction, a.cause, a.dbOk, opening, Some(v.id), {Deposit});
        PostEffect(w.account, a.amount, a.kind, a.direction, a.cause, a.dbOk, opening, Some(v.id), CHARGES);
        PostEffect(w.account, a.amount, a.kind, a.direction, a.cause, a.dbOk, opening, Some(v.id), {Kind.Refund});
      }
    }
  }

  /** Nobody is charged without being served, nor served without being charged. */
  predicate ServedForMoney(v: Invoice, w: World) { w.row.payload.walletDebited <==> Delivered(v, w) }

  predicate SameCharge(w: World, w1: World) {
    && w1.account == w.account && w1.row.status == w.row.status && w1.row.actuallyPaid == w.row.actuallyPaid
    && w1.row.payload.walletDebited == w.row.payload.walletDebited
    && w1.row.payload.refundCompleted == w.row.payload.refundCompleted
    && w1.row.payload.provisioned == w.row.payload.provisioned
  }

  lemma PlanAndCodeChargeNothing(v: Invoice, w: World, o: Outcome)
    ensures SameCharge(w, ResolvePlan(v, w, o).0) && SameCharge(w, ConsumeCode(v, w, o))
  {
    hide Use;
  }

  lemma OrderChargesNothing(w: World, o: Outcome)
    ensures SameCharge(w, OpenOrder(w, o))
  {
  }

  /** Up to the savepoint nothing is charged. */
  lemma PreparingChargesNothing(v: Invoice, w: World, o: Outcome)
    ensures SameCharge(w, ResolvePlan(v, w, o).0)
    ensures SameCharge(w, OpenOrder(ConsumeCode(v, ResolvePlan(v, w, o).0, o), o))
  {
    hide ResolvePlan, ConsumeCode, OpenOrder;
    var w1 := ResolvePlan(v, w, o).0;
    PlanAndCodeChargeNothing(v, w, o);
    PlanAndCodeChargeNothing(v, w1, o);
    OrderChargesNothing(ConsumeCode(v, w1, o), o);
  }

  lemma ProvisionServes(v: Invoice, w: World, o: Outcome)
    requires v.kind == DirectPurchase && HasOrder(w) && ChargeAndFulfil(v, w, o).Some?
    ensures ServedForMoney(v, TryProvision(v, w, o).0) && TryProvision(v, w, o).0.row.payload.provisioned
  {
    hide Post;
  }

  lemma FailureRefunds(v: Invoice, w: World, o: Outcome)
    requires HasOrder(w) && !w.row.payload.walletDebited && ChargeAndFulfil(v, w, o).None?
    ensures !TryProvision(v, w, o).0.row.payload.walletDebited && !TryProvision(v, w, o).1
    ensures TryProvision(v, w, o).0.row.payload.provisioned == w.row.payload.provisioned
  {
    hide ChargeAndFulfil, Post;
  }

  lemma PurchaseServes(v: Invoice, w: World, o: Outcome)
    requires v.kind == DirectPurchase && !w.row.payload.provisioned && !w.row.payload.walletDebited
    ensures
      var (w1, answer) := HandlePurchase(v, w, o);
      ServedForMoney(v, w1) && (answer == Returned(true) ==> w1.row.payload.provisioned)
  {
    PreparingChargesNothing(v, w, o);
    hide ResolvePlan, ConsumeCode, OpenOrder, TryProvision, ChargeAndFulfil;
    var w2 := OpenOrder(ConsumeCode(v, ResolvePlan(v, w, o).0, o), o);
    if ChargeAndFulfil(v, w2, o).Some? {
      ProvisionServes(v, w2, o);
    } else {
      FailureRefunds(v, w2, o);
    }
  }

  lemma ChargeMarks(v: Invoice, w: World, o: Outcome)
    requires ChargeAndFulfil(v, w, o).Some?
    ensures ChargeAndFulfil(v, w, o).value.row == w.row.(payload := w.row.payload.(walletDebited := true))
  {
    hide Post;
  }

  lemma NothingToRefund(v: Invoice, w: World, o: Outcome)
    requires !w.row.payload.walletDebited
    ensures RefundAndMark(v, w, o).0.row == MarkCompensated(w.row, true)
  {
  }

  lemma LockedServes(v: Invoice, w: World, o: Outcome)
    requires !w.row.payload.renewalApplied && !w.row.payload.walletDebited
    ensures
      var (w1, answer) := ApplyLocked(v, w, o);
      && !w1.row.payload.renewalApplied
      && (w1.row.payload.walletDebited <==> ChargeAndFulfil(v, w, o).Some?)
      && (answer == Returned(true) <==> w1.row.payload.walletDebited && o.closeOk)
  {
    if ChargeAndFulfil(v, w, o).Some? {
      ChargeMarks(v, w, o);
    }
    NothingToRefund(v, w, o);
    hide ChargeAndFulfil, RefundAndMark;
  }

  lemma RenewalServes(v: Invoice, w: World, o: Outcome)
    requires v.kind == DirectRenewal && !w.row.payload.renewalApplied && !w.row.payload.walletDebited
    ensures
      var (w1, answer) := HandleRenewal(v, w, o);
      && !w1.row.payload.renewalApplied
      && (w1.row.payload.walletDebited <==> Reaches(v, o) && ChargeAndFulfil(v, w, o).Some?)
      && (answer == Returned(true) <==> w1.row.payload.walletDebited && o.closeOk)
  {
    LockedServes(v, w, o);
    hide ApplyLocked, ChargeAndFulfil;
  }

  lemma RenewalDeliveryServes(v: Invoice, w: World, o: Outcome)
    requires v.kind == DirectRenewal && ServedForMoney(v, Settle(v, w, o).0)
    requires Settle(v, w, o).1 && !Settle(v, w, o).0.row.payload.renewalApplied && o.commit
    ensures ServedForMoney(v, Deliver(v, w, o).0) <==> !RenewalUnmarked(v, w, o)
  {
    hide Settle, ChargeAndFulfil, HandlePurchase, HandleRenewal;
    RenewalServes(v, Settle(v, w, o).0, o);
  }

  lemma PurchaseDeliveryServes(v: Invoice, w: World, o: Outcome)
    requires v.kind == DirectPurchase && ServedForMoney(v, Settle(v, w, o).0)
    ensures ServedForMoney(v, Deliver(v, w, o).0)
  {
    hide Settle, HandlePurchase, HandleRenewal;
    var (w1, settled) := Settle(v, w, o);
    if settled && !w1.row.payload.provisioned {
      PurchaseServes(v, w1, o);
    }
  }

  /** Charging exactly for service survives a delivery under the same condition. */
  lemma DeliveryServesIff(v: Invoice, w: World, o: Outcome, opening: int)
    requires Inv(v, w, opening) && ServedForMoney(v, w)
    ensures ServedForMoney(v, Step(v, w, Delivery(o))) <==> !RenewalUnmarked(v, w, o)
  {
    SettleKeeps(v, w, o, opening);
    hide Inv, Settle, ChargeAndFulfil, HandlePurchase, HandleRenewal;
    var (w1, settled) := Settle(v, w, o);
    assert ServedForMoney(v, w1);
    if v.kind == DirectPurchase {
      PurchaseDeliveryServes(v, w, o);
      hide Deliver;
    } else if o.commit && settled && v.kind == DirectRenewal && !w1.row.payload.renewalApplied {
      RenewalDeliveryServes(v, w, o);
      hide Deliver;
    }
  }

  // ── Whole runs ────────────────────────────────────────────────────────────────────────────

  ghost predicate InvThroughout(v: Invoice, w: World, actions: seq<Action>, opening: int)
    decreases |actions|
  {
    Inv(v, w, opening) && (actions != [] ==> InvThroughout(v, Step(v, w, actions[0]), actions[1..], opening))
  }

  ghost predicate EveryRenewalMarked(v: Invoice, w: World, actions: seq<Action>)
    decreases |actions|
  {
    actions != [] ==>
      && (actions[0].Delivery? ==> !RenewalUnmarked(v, w, actions[0].o))
      && EveryRenewalMarked(v, Step(v, w, actions[0]), actions[1..])
  }

  /** Over every run, with any mix of failures, rollbacks and outside activity: conservation and
      exactly-once fulfilment hold in every state if and only if no delivery of the run left a
      successful renewal unmarked. */
  lemma {:induction false} RunKeepsIff(v: Invoice, w: World, actions: seq<Action>, opening: int)
    requires Inv(v, w, opening)
    ensures InvThroughout(v, w, actions, opening) <==> EveryRenewalMarked(v, w, actions)
    decreases |actions|
  {
    if actions != [] {
      var w1 := Step(v, w, actions[0]);
      if actions[0].Delivery? {
        DeliveryKeepsIff(v, w, actions[0].o, opening);
      } else {
        ForeignKeeps(v, w, actions[0], opening);
      }
      if Inv(v, w1, opening) {
        RunKeepsIff(v, w1, actions[1..], opening);
      }
    }
  }

  lemma {:induction false} UnmarkedNeedsClosing(v: Invoice, w: World, actions: seq<Action>)
    requires v.kind != DirectRenewal || forall i :: 0 <= i < |actions| && actions[i].Delivery? ==> actions[i].o.closeOk
    ensures EveryRenewalMarked(v, w, actions)
    decreases |actions|
  {
    if actions != [] {
      UnmarkedNeedsClosing(v, Step(v, w, actions[0]), actions[1..]);
    }
  }

  lemma {:induction false} InvAtEnd(v: Invoice, w: World, actions: seq<Action>, opening: int)
    requires InvThroughout(v, w, actions, opening)
    ensures Inv(v, Run(v, w, actions), opening)
    decreases |actions|
  {
    if actions != [] {
      InvAtEnd(v, Step(v, w, actions[0]), actions[1..], opening);
    }
  }

  ghost predicate ServedThroughout(v: Invoice, w: World, actions: seq<Action>)
    decreases |actions|
  {
    ServedForMoney(v, w) && (actions != [] ==> ServedThroughout(v, Step(v, w, actions[0]), actions[1..]))
  }

  /** Over every run, debited exactly when delivered in every state, if and only if no renewal was
      left unmarked. */
  lemma {:induction false} RunServesIff(v: Invoice, w: World, actions: seq<Action>, opening: int)
    requires Inv(v, w, opening) && ServedForMoney(v, w)
    ensures ServedThroughout(v, w, actions) <==> EveryRenewalMarked(v, w, actions)
    decreases |actions|
  {
    hide Inv, RenewalUnmarked, ServedForMoney;
    if actions != [] {
      var w1 := Step(v, w, actions[0]);
      if actions[0].Delivery? {
        DeliveryKeepsIff(v, w, actions[0].o, opening);
        DeliveryServesIff(v, w, actions[0].o, opening);
      } else {
        ForeignKeeps(v, w, actions[0], opening);
        ForeignServes(v, w, actions[0]);
      }
      if Inv(v, w1, opening) && ServedForMoney(v, w1) {
        RunServesIff(v, w1, actions[1..], opening);
      }
    }
  }

  lemma {:induction false} ServedAtEnd(v: Invoice, w: World, actions: seq<Action>)
    requires ServedThroughout(v, w, actions)
    ensures ServedForMoney(v, Run(v, w, actions))
    decreases |actions|
  {
    hide ServedForMoney;
    if actions != [] {
      ServedAtEnd(v, Step(v, w, actions[0]), actions[1..]);
    }
  }

  lemma ForeignServes(v: Invoice, w: World, a: Action)
    requires ServedForMoney(v, w) && !a.Delivery?
    ensures ServedForMoney(v, Step(v, w, a))
  {
    hide Post, Use;
  }

  /** An invoice nobody has paid yet. */
  ghost predicate Fresh(v: Invoice, w: World, opening: int) {
    var p := w.row.payload;
    && w.row.actuallyPaid.None?
    && !p.walletDebited && !p.refundCompleted && !p.provisioned && !p.renewalApplied && !p.discountConsumed
    && w.desk.orders == [] && w.desk.plans == w.desk.subscriptions == w.desk.renewals == w.desk.codeUses == 0
    && 0 <= w.desk.code.used <= w.desk.code.maxUses
    && Chained(opening, w.account.ledger, w.account.balance)
    && (forall i :: 0 <= i < |w.account.ledger| ==> w.account.ledger[i].cause != Some(v.id))
  }

  lemma {:induction false} NoRows(ledger: seq<LedgerRow>, cause: Option<nat>, kinds: set<Kind>)
    requires forall i :: 0 <= i < |ledger| ==> ledger[i].cause != cause
    ensures NetOf(ledger, cause) == 0 && CountOf(ledger, cause, kinds) == 0
  {
    if ledger != [] {
      NoRows(ledger[..|ledger| - 1], cause, kinds);
    }
  }

  /** The theorem from the start: a fresh invoice, any run in which closing a session never raises
      after a renewal. The customer ends up with deposit minus cost exactly when served, a
      delivered payment has one debit and one effect, and the code gave at most one slot. */
  lemma FreshRunsConserve(v: Invoice, w: World, actions: seq<Action>, opening: int)
    requires Fresh(v, w, opening)
    requires v.kind != DirectRenewal || forall i :: 0 <= i < |actions| && actions[i].Delivery? ==> actions[i].o.closeOk
    ensures
      var end := Run(v, w, actions);
      && MoneyConserved(v, end)
      && FulfilledOnce(v, end)
      && ServedForMoney(v, end)
      && NetOf(end.account.ledger, Some(v.id)) == PaidIn(end) -
           (if !end.row.payload.walletDebited then 0
            else if v.kind == DirectRenewal && v.renewCost.Some? && v.renewCost.value != 0 then v.renewCost.value
            else v.price)
      && end.desk.codeUses <= 1 && end.desk.plans <= 1 && end.desk.code.used <= end.desk.code.maxUses
      && end.account.balance == opening + Total(end.account.ledger)
  {
    NoRows(w.account.ledger, Some(v.id), {Deposit});
    NoRows(w.account.ledger, Some(v.id), CHARGES);
    NoRows(w.account.ledger, Some(v.id), {Kind.Refund});
    assert Inv(v, w, opening);
    UnmarkedNeedsClosing(v, w, actions);
    RunKeepsIff(v, w, actions, opening);
    InvAtEnd(v, w, actions, opening);
    RunServesIff(v, w, actions, opening);
    ServedAtEnd(v, w, actions);
    var end := Run(v, w, actions);
    ChainedTotal(opening, end.account.ledger, end.account.balance);
  }

  // ── The guard of the gateway reviews ──────────────────────────────────────────────────────

  predicate SameEffects(w: World, w1: World) {
    && w1.account == w.account
    && (w1.desk.orders, w1.desk.plans, w1.desk.subscriptions, w1.desk.renewals)
       == (w.desk.orders, w.desk.plans, w.desk.subscriptions, w.desk.renewals)
  }

  function WithBalance(w: World, balance: int): World { w.(account := w.account.(balance := balance)) }

  /** One more delivery changes no wallet, order, plan or subscription, whatever the outside
      answers and whatever the wallet holds by then. A stored order is found. */
  ghost predicate Inert(v: Invoice, w: World) {
    forall o: Outcome, balance: int ::
      o.orderFound ==> SameEffects(WithBalance(w, balance), Deliver(v, WithBalance(w, balance), o).0)
  }

  /** Paid, not fulfilled, and unfulfillable: the invoice names no plan, or no subscription, or there
      is nothing to charge (and the order of a purchase has been given up). */
  predicate Stuck(v: Invoice, w: World) {
    && w.row.actuallyPaid.Some?
    && match v.kind
       case DirectPurchase =>
         && !w.row.payload.provisioned
         && if w.row.payload.planKnown then
              && v.Cost() <= 0 && !w.row.payload.walletDebited
              && HasOrder(w) && w.desk.orders[w.row.payload.orderId.value] == OrderRefunded
            else !v.customPurchase
       case DirectRenewal =>
         && !w.row.payload.renewalApplied && !w.row.payload.renewalRefused
         && (!v.hasMeta || (v.Cost() <= 0 && !w.row.payload.walletDebited))
       case Other => false
  }

  const SMOOTH: Outcome := Outcome(1, true, true, true, true, true, true, true, 0, true, true,
                                   true, true, true, true, true, true, true, true)

  lemma {:induction false} NoDepositYet(ledger: seq<LedgerRow>, cause: Option<nat>)
    requires CountOf(ledger, cause, {Deposit}) == 0
    ensures !DepositExists(ledger, cause)
  {
    if ledger != [] {
      var last := |ledger| - 1;
      NoDepositYet(ledger[..last], cause);
      if DepositExists(ledger, cause) {
        var i :| 0 <= i < |ledger|
                 && ledger[i].kind == Deposit && ledger[i].direction == Credit && ledger[i].cause == cause;
      }
    }
  }

  /** `already_processed` holds exactly when one more delivery would change nothing, once payments
      that can never be fulfilled are set aside. */
  lemma GuardIsExact(v: Invoice, w: World, opening: int)
    requires Inv(v, w, opening)
    ensures Inert(v, w) <==> AlreadyProcessed(v, w) || Stuck(v, w)
  {
    if AlreadyProcessed(v, w) || Stuck(v, w) {
      forall o: Outcome, balance: int | o.orderFound
        ensures SameEffects(WithBalance(w, balance), Deliver(v, WithBalance(w, balance), o).0)
      {
        DoneIsInert(v, WithBalance(w, balance), o);
      }
    } else {
      LiveDeliveryActs(v, w, opening);
    }
  }

  lemma DoneIsInert(v: Invoice, w: World, o: Outcome)
    requires AlreadyProcessed(v, w) || Stuck(v, w)
    requires o.orderFound
    ensures SameEffects(w, Deliver(v, w, o).0)
  {
    hide Use;
    if v.kind == DirectPurchase && !w.row.payload.provisioned && w.row.payload.planKnown {
      GivenUpIsInert(v, w.(row := w.row.(status := Finished)), o);
      hide HandlePurchase;
    }
  }

  lemma GivenUpIsInert(v: Invoice, w: World, o: Outcome)
    requires v.kind == DirectPurchase && Stuck(v, w) && w.row.payload.planKnown && o.orderFound
    ensures SameEffects(w, HandlePurchase(v, w, o).0) && HandlePurchase(v, w, o).1 != Returned(true)
  {
    var w1 := ConsumeCode(v, w, o);
    assert ResolvePlan(v, w, o).0 == w;
    assert w1.row.payload.orderId == w.row.payload.orderId && w1.desk.orders == w.desk.orders by { hide Use; }
    assert SameEffects(w, w1) && SameCharge(w, w1) by { hide Use; }
    assert OpenOrder(w1, o) == w1;
    hide ResolvePlan, ConsumeCode, OpenOrder;
    NothingChargedIsInert(v, w1, o);
    hide TryProvision;
  }

  lemma NothingChargedIsInert(v: Invoice, w: World, o: Outcome)
    requires HasOrder(w) && w.desk.orders[w.row.payload.orderId.value] == OrderRefunded
    requires v.Cost() <= 0 && !w.row.payload.walletDebited
    ensures SameEffects(w, TryProvision(v, w, o).0) && !TryProvision(v, w, o).1
  {
    assert ChargeAndFulfil(v, w, o).None?;
    hide ChargeAndFulfil, Post;
    assert TryProvision(v, w, o).0.desk.orders == w.desk.orders;
  }

  lemma LiveDeliveryActs(v: Invoice, w: World, opening: int)
    requires Inv(v, w, opening)
    requires !AlreadyProcessed(v, w) && !Stuck(v, w)
    ensures !Inert(v, w)
  {
    var balance := v.Cost() - w.account.creditLimit;
    var w0 := WithBalance(w, balance);
    if w.row.actuallyPaid.None? {
      NoDepositYet(w.account.ledger, Some(v.id));
      var o := SMOOTH.(userFound := false, lockOk := false);
      assert |Deliver(v, w0, o).0.account.ledger| == |w0.account.ledger| + 1;
      assert !SameEffects(w0, Deliver(v, w0, o).0);
    } else if v.kind == DirectPurchase {
      LivePurchaseActs(v, w, balance);
    } else {
      var o := SMOOTH;
      assert Deliver(v, w0, o).0.desk.renewals == w0.desk.renewals + 1;
      assert !SameEffects(w0, Deliver(v, w0, o).0);
    }
  }

  const WAITS: Outcome := SMOOTH.(preflightOk := false)

  lemma WaitingPurchaseActs(v: Invoice, w: World)
    requires v.kind == DirectPurchase && w.row.actuallyPaid.Some? && !w.row.payload.provisioned && !Stuck(v, w)
    requires !w.row.payload.planKnown || !HasOrder(w)
    ensures !SameEffects(w, Deliver(v, w, WAITS).0)
  {
    var w1 := w.(row := w.row.(status := Finished));
    PreparingActs(v, w1);
    hide ResolvePlan, ConsumeCode, OpenOrder, TryProvision, Use;
    assert HandlePurchase(v, w1, WAITS).0 == OpenOrder(ConsumeCode(v, ResolvePlan(v, w1, WAITS).0, WAITS), WAITS);
    hide HandlePurchase;
    assert Deliver(v, w, WAITS).0.desk == HandlePurchase(v, w1, WAITS).0.desk;
  }

  predicate SameOrders(w: World, w1: World) {
    w1.desk.orders == w.desk.orders && w1.row.payload.orderId == w.row.payload.orderId
  }

  lemma PlanLeavesOrders(v: Invoice, w: World, o: Outcome)
    ensures
      var (w1, planned) := ResolvePlan(v, w, o);
      && SameOrders(w, w1)
      && (w.row.payload.planKnown ==> planned == o.planFound && w1.desk.plans == w.desk.plans)
      && (!w.row.payload.planKnown && v.customPurchase && o.customOk ==> planned && w1.desk.plans == w.desk.plans + 1)
  {
  }

  lemma CodeLeavesOrders(v: Invoice, w: World, o: Outcome)
    ensures SameOrders(w, ConsumeCode(v, w, o)) && ConsumeCode(v, w, o).desk.plans == w.desk.plans
  {
    hide Use;
  }

  lemma OrderLeavesPlans(w: World, o: Outcome)
    ensures OpenOrder(w, o).desk.plans == w.desk.plans
    ensures !HasOrder(w) ==> |OpenOrder(w, o).desk.orders| == |w.desk.orders| + 1
  {
  }

  lemma PreparingActs(v: Invoice, w: World)
    requires v.kind == DirectPurchase
    requires if w.row.payload.planKnown then !HasOrder(w) else v.customPurchase
    ensures ResolvePlan(v, w, WAITS).1
    ensures
      var w1 := OpenOrder(ConsumeCode(v, ResolvePlan(v, w, WAITS).0, WAITS), WAITS);
      w1.desk.plans != w.desk.plans || |w1.desk.orders| != |w.desk.orders|
  {
    hide ResolvePlan, ConsumeCode, OpenOrder;
    var w1 := ResolvePlan(v, w, WAITS).0;
    PlanLeavesOrders(v, w, WAITS);
    CodeLeavesOrders(v, w1, WAITS);
    OrderLeavesPlans(ConsumeCode(v, w1, WAITS), WAITS);
  }

  lemma LivePurchaseActs(v: Invoice, w: World, balance: int)
    requires v.kind == DirectPurchase && w.row.actuallyPaid.Some? && !w.row.payload.provisioned && !Stuck(v, w)
    requires balance == v.Cost() - w.account.creditLimit
    ensures !Inert(v, w)
  {
    var w0 := WithBalance(w, balance);
    var o := if w.row.payload.planKnown && HasOrder(w) then SMOOTH else WAITS;
    if w.row.payload.planKnown && HasOrder(w) {
      OrderedPurchaseActs(v, w0);
    } else {
      WaitingPurchaseActs(v, w0);
    }
    hide Deliver, Stuck, SameEffects;
    assert !SameEffects(w0, Deliver(v, w0, o).0);
  }

  lemma PreparedAgain(v: Invoice, w: World)
    requires w.row.payload.planKnown && HasOrder(w)
    ensures
      var w1 := ConsumeCode(v, w, SMOOTH);
      && ResolvePlan(v, w, SMOOTH) == (w, true) && OpenOrder(w1, SMOOTH) == w1
      && SameCharge(w, w1) && w1.row.payload.orderId == w.row.payload.orderId
      && w1.desk.orders == w.desk.orders && w1.desk.subscriptions == w.desk.subscriptions
  {
    hide Use;
  }

  lemma OrderedPurchaseActs(v: Invoice, w: World)
    requires v.kind == DirectPurchase && w.row.actuallyPaid.Some? && !w.row.payload.provisioned && !Stuck(v, w)
    requires w.row.payload.planKnown && HasOrder(w) && w.account.balance == v.Cost() - w.account.creditLimit
    ensures !SameEffects(w, Deliver(v, w, SMOOTH).0)
  {
    var w1 := w.(row := w.row.(status := Finished));
    PreparedAgain(v, w1);
    hide ConsumeCode, ResolvePlan, OpenOrder;
    var w2 := ConsumeCode(v, w1, SMOOTH);
    ProvisionActs(v, w2, SMOOTH);
    hide TryProvision, Stuck;
    assert HandlePurchase(v, w1, SMOOTH).0 == TryProvision(v, w2, SMOOTH).0;
    hide HandlePurchase;
    assert Deliver(v, w, SMOOTH).0.desk == HandlePurchase(v, w1, SMOOTH).0.desk;
  }

  lemma ProvisionActs(v: Invoice, w: World, o: Outcome)
    requires v.kind == DirectPurchase && HasOrder(w) && o.debitOk && o.fulfilOk
    requires w.account.balance == v.Cost() - w.account.creditLimit
    requires v.Cost() > 0 || w.row.payload.walletDebited || w.desk.orders[w.row.payload.orderId.value] != OrderRefunded
    ensures
      var w1 := TryProvision(v, w, o).0;
      w1.desk.subscriptions != w.desk.subscriptions || w1.desk.orders != w.desk.orders
  {
    if v.Cost() > 0 || w.row.payload.walletDebited {
      assert ChargeAndFulfil(v, w, o).Some?;
      assert ChargeAndFulfil(v, w, o).value.desk == Fulfil(v, w.desk);
    } else {
      assert ChargeAndFulfil(v, w, o).None?;
      assert TryProvision(v, w, o).0.desk.orders[w.row.payload.orderId.value] == OrderRefunded;
    }
  }

  // ── What an unmarked renewal leads to ─────────────────────────────────────────────────────

  const RENEWAL: Invoice := Invoice(7, DirectRenewal, false, 500, None, true, false, false)
  const UNPAID: World := World(
    PaymentRow(Reported("waiting"), None,
               Payload(false, false, None, false, false, false, false, false, false, false, false)),
    Account(0, 0, []),
    Desk([], false, 0, 0, 0, Code(0, 1, true, None, None), 0))

  const PAYS: Outcome := SMOOTH.(amount := 500)
  const CLOSE_FAILS: Outcome := PAYS.(closeOk := false)
  const APPLY_FAILS: Outcome := PAYS.(fulfilOk := false)

  const DEPOSITED: LedgerRow := LedgerRow(Deposit, Credit, 500, 0, 500, Some(7))
  const CHARGED: LedgerRow := LedgerRow(RenewalCharge, Debit, 500, 500, 0, Some(7))

  /** A retry after it renews a second time for the one charge. */
  lemma UnmarkedRenewsTwice()
    ensures
      var end := Run(RENEWAL, UNPAID, [Delivery(CLOSE_FAILS), Delivery(PAYS)]);
      && Fresh(RENEWAL, UNPAID, 0)
      && end.desk.renewals == 2
      && CountOf(end.account.ledger, Some(7), CHARGES) == 1
  {
    var w1 := Step(RENEWAL, UNPAID, Delivery(CLOSE_FAILS));
    assert w1.account.ledger == [DEPOSITED, CHARGED] && w1.row.payload.walletDebited && !w1.row.payload.renewalApplied;
    var w2 := Step(RENEWAL, w1, Delivery(PAYS));
    assert w2.account == w1.account && w2.desk.renewals == 2;
    UnrollTwo(RENEWAL, UNPAID, Delivery(CLOSE_FAILS), Delivery(PAYS));
    CountTwo(DEPOSITED, CHARGED);
  }

  /** The three deliveries of the next lemma, one at a time. */
  lemma FailThenUnmarked()
    ensures
      var w1 := Step(RENEWAL, UNPAID, Delivery(APPLY_FAILS));
      var w2 := Step(RENEWAL, w1, Delivery(CLOSE_FAILS));
      && w1.account == Account(500, 0, [DEPOSITED]) && w1.row.payload.refundCompleted && !w1.row.payload.walletDebited
      && w2.account.ledger == [DEPOSITED, CHARGED] && w2.row.actuallyPaid == Some(500)
      && w2.row.payload.walletDebited && w2.row.payload.refundCompleted
      && !w2.row.payload.renewalApplied && !w2.row.payload.renewalRefused
  {
    var w1 := Step(RENEWAL, UNPAID, Delivery(APPLY_FAILS));
    assert w1.account == Account(500, 0, [DEPOSITED]);
    assert w1.row == PaymentRow(Refunded, Some(500),
                                UNPAID.row.payload.(refundCompleted := true, renewalFailed := true));
  }

  lemma StaleRefundIsTrusted(w: World)
    requires w.row.actuallyPaid == Some(500) && w.row.payload.walletDebited && w.row.payload.refundCompleted
    requires !w.row.payload.renewalApplied && !w.row.payload.renewalRefused
    ensures
      var w1 := Step(RENEWAL, w, Delivery(APPLY_FAILS));
      w1.account == w.account && w1.row.status == Refunded && !w1.row.payload.walletDebited && PaidIn(w1) == 500
  {
  }

  /** If an earlier attempt had failed, the refund on record is stale: the third delivery reports
      the money as returned although the customer is 500 units short of the conserved sum. */
  lemma UnmarkedAfterRefundLosesMoney()
    ensures
      var end := Run(RENEWAL, UNPAID, [Delivery(APPLY_FAILS), Delivery(CLOSE_FAILS), Delivery(APPLY_FAILS)]);
      && end.row.status == Refunded && !end.row.payload.walletDebited
      && NetOf(end.account.ledger, Some(7)) == PaidIn(end) - 500
      && !MoneyConserved(RENEWAL, end)
  {
    FailThenUnmarked();
    var w1 := Step(RENEWAL, UNPAID, Delivery(APPLY_FAILS));
    var w2 := Step(RENEWAL, w1, Delivery(CLOSE_FAILS));
    StaleRefundIsTrusted(w2);
    var rest := [Delivery(CLOSE_FAILS), Delivery(APPLY_FAILS)];
    assert [Delivery(APPLY_FAILS), Delivery(CLOSE_FAILS), Delivery(APPLY_FAILS)][1..] == rest;
    UnrollTwo(RENEWAL, w1, Delivery(CLOSE_FAILS), Delivery(APPLY_FAILS));
    CountTwo(DEPOSITED, CHARGED);
  }

  lemma UnrollTwo(v: Invoice, w: World, a: Action, b: Action)
    ensures Run(v, w, [a, b]) == Step(v, Step(v, w, a), b)
  {
    assert [a, b][1..] == [b] && [b][1..] == [];
    assert Run(v, Step(v, w, a), [b]) == Run(v, Step(v, Step(v, w, a), b), []);
  }

  lemma CountTwo(deposit: LedgerRow, charge: LedgerRow)
    requires deposit.kind == Deposit && charge.kind == RenewalCharge
    ensures NetOf([deposit, charge], Some(7)) ==
            (if deposit.cause == Some(7) then deposit.Signed() else 0)
            + (if charge.cause == Some(7) then charge.Signed() else 0)
    ensures CountOf([deposit, charge], Some(7), CHARGES) == (if charge.cause == Some(7) then 1 else 0)
  {
    var none: seq<LedgerRow> := [];
    assert [deposit, charge][..1] == [deposit] && [deposit][..0] == none;
    assert NetOf(none, Some(7)) == 0 && CountOf(none, Some(7), CHARGES) == 0;
    assert NetOf([deposit], Some(7)) == (if deposit.cause == Some(7) then deposit.Signed() else 0);
    assert CountOf([deposit], Some(7), CHARGES) == 0;
  }

  /** The delivery gets as far as the savepoint. */
  predicate Arrives(v: Invoice, w: World, o: Outcome) {
    match v.kind
    case DirectPurchase => o.userFound && ResolvePlan(v, w, o).1 && o.preflightOk
    case DirectRenewal => Reaches(v, o) && o.closeOk && !w.row.payload.renewalRefused
    case Other => false
  }

  /** The state "debited, not delivered, refund failed" keeps the invariant, and one more delivery
      that arrives repairs it: it either fulfils for the debit already made, or gives the money back. */
  lemma OwedRefundIsRepaired(v: Invoice, w: World, o: Outcome, opening: int)
    requires Inv(v, w, opening) && w.row.payload.walletDebited && !Delivered(v, w)
    requires Arrives(v, w, o) && o.commit && o.refundOk && v.Cost() > 0
    ensures
      var end := Step(v, w, Delivery(o));
      && Inv(v, end, opening)
      && (o.fulfilOk ==> Delivered(v, end) && end.account == w.account)
      && (!o.fulfilOk ==> end.row.status == Refunded && NetOf(end.account.ledger, Some(v.id)) == PaidIn(end))
  {
    DeliveryKeepsIff(v, w, o, opening);
    hide Chained, NetOf, CountOf, Use;
    if v.kind == DirectPurchase {
      OwedPurchase(v, w.(row := w.row.(status := Finished)), o);
    }
  }

  lemma OwedPurchase(v: Invoice, w: World, o: Outcome)
    requires v.kind == DirectPurchase && w.row.payload.walletDebited && !w.row.payload.provisioned
    requires !w.row.payload.refundCompleted && w.row.status == Finished
    requires Arrives(v, w, o) && o.refundOk && v.Cost() > 0
    ensures
      var (w1, answer) := HandlePurchase(v, w, o);
      && w1.row.actuallyPaid == w.row.actuallyPaid
      && (o.fulfilOk ==> w1.row.payload.provisioned && w1.account == w.account)
      && (!o.fulfilOk ==> w1.row.status == Refunded && !w1.row.payload.walletDebited && answer != Returned(true))
  {
    PreparingChargesNothing(v, w, o);
    hide ResolvePlan, ConsumeCode, OpenOrder, TryProvision;
    OwedProvision(v, OpenOrder(ConsumeCode(v, ResolvePlan(v, w, o).0, o), o), o);
  }

  lemma OwedProvision(v: Invoice, w: World, o: Outcome)
    requires HasOrder(w) && w.row.payload.walletDebited && !w.row.payload.refundCompleted && w.row.status == Finished
    requires o.refundOk && v.Cost() > 0
    ensures
      var (w1, ok) := TryProvision(v, w, o);
      && w1.row.actuallyPaid == w.row.actuallyPaid && ok == o.fulfilOk
      && (ok ==> w1.row.payload.provisioned && w1.account == w.account)
      && (!ok ==> w1.row.status == Refunded && !w1.row.payload.walletDebited)
  {
    var posted := Post(w.account, v.Cost(), Kind.Refund, Credit, Some(v.id), true);
    assert posted.Some?;
    hide Post;
  }
}
