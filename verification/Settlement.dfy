/** One delivery of a paid invoice (services/payment.py), as a function of the stored rows and of
    what the outside calls answer. `PaymentService` runs it on mutable rows. */
module Settlement {
  import opened Options
  import opened Wallets
  import opened Discounts

  datatype PaymentKind = DirectPurchase | DirectRenewal | Other
  datatype Status = Finished | Refunded | Reported(text: string)
  datatype OrderStatus = Processing | Provisioned | OrderRefunded | FailedNeedsManualRefund

  /** What is fixed when the invoice is written. `renewCost` is `total_renew_cost`; `hasMeta` says
      that sub_id, renew_type and renew_amount are all there. */
  datatype Invoice = Invoice(
    id: nat, kind: PaymentKind, manualCrypto: bool, price: int, renewCost: Option<int>,
    hasMeta: bool, customPurchase: bool, hasDiscount: bool)
  {
    /** The sum debited for the service: partial renewals carry their own total. */
    function Cost(): int {
      if kind == DirectRenewal && renewCost.Some? && renewCost.value != 0 then renewCost.value else price
    }
  }

  /** The keys of `callback_payload` that deliveries read or write. */
  datatype Payload = Payload(
    planKnown: bool, discountConsumed: bool, orderId: Option<nat>,
    walletDebited: bool, refundCompleted: bool, needsManualRefund: bool,
    provisioningFailed: bool, provisioned: bool,
    renewalApplied: bool, renewalRefused: bool, renewalFailed: bool)

  datatype PaymentRow = PaymentRow(status: Status, actuallyPaid: Option<int>, payload: Payload)

  /** The other tables a delivery writes: orders, the discount code, and counters of what this
      payment has brought about (claims, custom plans, subscriptions, renewals, code uses). */
  datatype Desk = Desk(
    orders: seq<OrderStatus>, claimed: bool, plans: nat, subscriptions: nat, renewals: nat,
    code: Code, codeUses: nat)

  datatype World = World(row: PaymentRow, account: Account, desk: Desk)

  /** Everything the outside decides during one delivery: which calls raise or refuse, and whether
      the caller commits in the end (false: it rolls back, or the process dies). */
  datatype Outcome = Outcome(
    amount: int, claimOk: bool, creditOk: bool, userFound: bool, customOk: bool, planFound: bool,
    codeFound: bool, codeLocked: bool, clock: int, orderFound: bool, preflightOk: bool,
    lockOk: bool, subFound: bool, subRenewable: bool,
    debitOk: bool, fulfilOk: bool, refundOk: bool, closeOk: bool, commit: bool)

  datatype Answer = Returned(value: bool) | Raised

  // ── Step 1: credit ────────────────────────────────────────────────────────────────────────

  function Settle(v: Invoice, w: World, o: Outcome): (World, bool) {
    if w.row.actuallyPaid.Some? then (w.(row := w.row.(status := Finished)), true)
    else if v.manualCrypto && !o.claimOk then (w, false)
    else
      var w1 := if v.manualCrypto then w.(desk := w.desk.(claimed := true)) else w;
      match Post(w1.account, o.amount, Deposit, Credit, Some(v.id), o.creditOk)
      case None => (w1, false)
      case Some(a) =>
        (w1.(account := a, row := w1.row.(status := Finished, actuallyPaid := Some(o.amount))), true)
  }

  // ── The savepoint: debit and fulfilment together ──────────────────────────────────────────

  function Fulfil(v: Invoice, d: Desk): Desk {
    if v.kind == DirectRenewal then d.(renewals := d.renewals + 1) else d.(subscriptions := d.subscriptions + 1)
  }

  function ChargeKind(v: Invoice): Kind { if v.kind == DirectRenewal then RenewalCharge else Purchase }

  /** `None`: an exception left the block and undid both writes. A payment already marked as
      debited is fulfilled without a second debit. */
  function ChargeAndFulfil(v: Invoice, w: World, o: Outcome): (r: Option<World>) {
    if w.row.payload.walletDebited then
      if o.fulfilOk then Some(w.(desk := Fulfil(v, w.desk))) else None
    else
      match Post(w.account, v.Cost(), ChargeKind(v), Debit, Some(v.id), o.debitOk)
      case None => None
      case Some(a) =>
        if o.fulfilOk then
          Some(w.(account := a, desk := Fulfil(v, w.desk),
                  row := w.row.(payload := w.row.payload.(walletDebited := true))))
        else None
  }

  /** The handler around it. The Boolean says whether the customer counts as refunded: nothing was
      debited, an earlier refund is on record, or the refund just posted. */
  function Compensate(v: Invoice, w: World, o: Outcome): (World, bool) {
    var p := w.row.payload;
    if !p.walletDebited || w.row.status == Refunded || p.refundCompleted then (w, true)
    else
      match Post(w.account, v.Cost(), Kind.Refund, Credit, Some(v.id), o.refundOk)
      case None => (w, false)
      case Some(a) => (w.(account := a), true)
  }

  function MarkCompensated(r: PaymentRow, refunded: bool): PaymentRow {
    if refunded then
      r.(status := Refunded, payload := r.payload.(walletDebited := false, refundCompleted := true))
    else
      r.(payload := r.payload.(walletDebited := true, needsManualRefund := true))
  }

  /** The whole handler: refund if one is owed, then mark. */
  function RefundAndMark(v: Invoice, w: World, o: Outcome): (r: (World, bool))
    ensures r.0.desk == w.desk && r.0.row.payload.orderId == w.row.payload.orderId
  {
    var (w1, refunded) := Compensate(v, w, o);
    (w1.(row := MarkCompensated(w1.row, refunded)), refunded)
  }

  // ── Step 2: direct purchase ───────────────────────────────────────────────────────────────

  /** The code's slot is taken at most once per payment, whatever the verdict. */
  function ConsumeCode(v: Invoice, w: World, o: Outcome): World {
    if v.hasDiscount && !w.row.payload.discountConsumed && o.codeFound then
      var (code, used) := if o.codeLocked then Use(w.desk.code, o.clock, None) else (w.desk.code, false);
      w.(desk := w.desk.(code := code, codeUses := if used then w.desk.codeUses + 1 else w.desk.codeUses),
         row := w.row.(payload := w.row.payload.(discountConsumed := true)))
    else w
  }

  predicate HasOrder(w: World) { w.row.payload.orderId.Some? && w.row.payload.orderId.value < |w.desk.orders| }

  predicate OrderUsable(w: World, o: Outcome) {
    o.orderFound && HasOrder(w)
  }

  function OpenOrder(w: World, o: Outcome): (r: World)
    ensures HasOrder(r)
  {
    if OrderUsable(w, o) then w
    else
      w.(desk := w.desk.(orders := w.desk.orders + [Processing]),
         row := w.row.(payload := w.row.payload.(orderId := Some(|w.desk.orders|))))
  }

  function SetOrder(w: World, s: OrderStatus): World
    requires HasOrder(w)
  {
    w.(desk := w.desk.(orders := w.desk.orders[w.row.payload.orderId.value := s]))
  }

  /** The plan is known from the invoice, or a custom plan is created now, once. */
  function ResolvePlan(v: Invoice, w: World, o: Outcome): (World, bool) {
    if w.row.payload.planKnown then (w, o.planFound)
    else if v.customPurchase && o.customOk then
      (w.(desk := w.desk.(plans := w.desk.plans + 1),
          row := w.row.(payload := w.row.payload.(planKnown := true))), true)
    else (w, false)
  }

  function MarkProvisioned(w: World): World
    requires HasOrder(w)
  {
    var w1 := SetOrder(w, Provisioned);
    w1.(row := w1.row.(payload := w1.row.payload.(provisioned := true)))
  }

  function FailPurchase(v: Invoice, w: World, o: Outcome): World
    requires HasOrder(w)
  {
    var (w1, refunded) := RefundAndMark(v, w, o);
    var w2 := SetOrder(w1, if refunded then OrderRefunded else FailedNeedsManualRefund);
    w2.(row := w2.row.(payload := w2.row.payload.(provisioningFailed := true)))
  }

  function TryProvision(v: Invoice, w: World, o: Outcome): (World, bool)
    requires HasOrder(w)
  {
    match ChargeAndFulfil(v, w, o)
    case Some(w1) => (MarkProvisioned(w1), true)
    case None => (FailPurchase(v, w, o), false)
  }

  function HandlePurchase(v: Invoice, w: World, o: Outcome): (World, Answer) {
    if !o.userFound then (w, Returned(false))
    else
      var (w1, planned) := ResolvePlan(v, w, o);
      if !planned then (w1, Returned(false))
      else
        var w2 := OpenOrder(ConsumeCode(v, w1, o), o);
        if !o.preflightOk then (w2, Returned(false))
        else
          var (w3, ok) := TryProvision(v, w2, o);
          (w3, if o.closeOk then Returned(ok) else Raised)
  }

  // ── Step 3: direct renewal ────────────────────────────────────────────────────────────────

  /** Debit and renewal under the renewal lock. Closing the notification session is the last
      call of the success path, and it may raise. */
  function ApplyLocked(v: Invoice, w: World, o: Outcome): (World, Answer) {
    match ChargeAndFulfil(v, w, o)
    case Some(w1) => (w1, if o.closeOk then Returned(true) else Raised)
    case None =>
      var w1 := RefundAndMark(v, w, o).0;
      (w1.(row := w1.row.(payload := w1.row.payload.(renewalFailed := true))), Returned(false))
  }

  function HandleRenewal(v: Invoice, w: World, o: Outcome): (World, Answer) {
    if !v.hasMeta || !o.lockOk || !o.subFound then (w, Returned(false))
    else if !o.subRenewable then
      (w.(row := w.row.(payload := w.row.payload.(renewalRefused := true))),
       if o.closeOk then Returned(false) else Raised)
    else if !o.preflightOk then (w, Returned(false))
    else ApplyLocked(v, w, o)
  }

  // ── The whole delivery ────────────────────────────────────────────────────────────────────

  function Deliver(v: Invoice, w: World, o: Outcome): (World, Answer) {
    var (w1, settled) := Settle(v, w, o);
    if !settled then (w1, Raised)
    else
      match v.kind
      case DirectPurchase =>
        if w1.row.payload.provisioned then (w1, Returned(true))
        else
          var (w2, answer) := HandlePurchase(v, w1, o);
          if answer == Returned(true) then
            (w2.(row := w2.row.(payload := w2.row.payload.(provisioned := true))), answer)
          else (w2, Returned(false))
      case DirectRenewal =>
        if w1.row.payload.renewalApplied then (w1, Returned(true))
        else if w1.row.payload.renewalRefused then (w1, Returned(false))
        else
          var (w2, answer) := HandleRenewal(v, w1, o);
          if answer == Returned(true) then
            (w2.(row := w2.row.(payload := w2.row.payload.(renewalApplied := true))), answer)
          else (w2, Returned(false))
      case Other => (w1, Returned(true))
  }

  /** The gateway reviews' test for "the follow-up is done too", before they deliver again. */
  predicate AlreadyProcessed(v: Invoice, w: World) {
    && w.row.actuallyPaid.Some?
    && match v.kind
       case DirectPurchase => w.row.payload.provisioned
       case DirectRenewal => w.row.payload.renewalApplied || w.row.payload.renewalRefused
       case Other => true
  }
}
