/** Rows of manual crypto payments, the amounts a new one has to avoid, and every run of creating,
    resolving and paying them (services/crypto_autoconfirm.py, apps/bot/handlers/user/topup.py,
    apps/worker/jobs/crypto_autoconfirm.py). */
module InvoiceRuns {
  import opened Options
  import opened Texts
  import opened CryptoClaims
  import opened Invoices

  /** `address` and `crypto_amount` of the JSON payload; an amount that is no number counts as none. */
  datatype Payload = Payload(address: Option<string>, cryptoAmount: Option<real>)

  /** `payload` is `None` when the column does not hold an object. */
  datatype Invoice = Invoice(
    provider: string, status: string, payCurrency: Option<string>, payAmount: Option<real>, payload: Option<Payload>)

  const PENDING := ["waiting_hash", "pending_approval", "waiting_receipt"]

  predicate IsPending(row: Invoice) { row.provider == "manual_crypto" && row.status in PENDING }

  function Aliases(currency: string): seq<string> {
    var canonical := CurrencyKey(currency);
    if canonical == "USDT TRC20" then USDT_TRC20
    else if canonical == "TRX" then TRX
    else if canonical == "TON" then TON
    else [canonical]
  }

  /** The rows of the query and of the checks in the loop. */
  predicate IsSeen(row: Invoice, currency: string, address: string) {
    && IsPending(row) && row.payCurrency.Some? && Upper(row.payCurrency.value) in Aliases(currency)
    && row.payload.Some? && row.payload.value.address == Some(address)
  }

  function AmountOf(row: Invoice): Option<real> {
    if row.payAmount.Some? then row.payAmount
    else if row.payload.Some? then row.payload.value.cryptoAmount else None
  }

  function PendingAmounts(rows: seq<Invoice>, currency: string, address: string): seq<real> {
    if rows == [] then []
    else
      var before, row := PendingAmounts(rows[..|rows| - 1], currency, address), rows[|rows| - 1];
      if IsSeen(row, currency, address) && AmountOf(row).Some? then before + [AmountOf(row).value] else before
  }

  method PendingAmountsFor(rows: seq<Invoice>, currency: string, address: string) returns (out: seq<real>)
    ensures out == PendingAmounts(rows, currency, address)
  {
    var aliases := Aliases(currency);
    out := [];
    for i := 0 to |rows|
      invariant out == PendingAmounts(rows[..i], currency, address)
    {
      assert rows[..i + 1][..i] == rows[..i];
      var row := rows[i];
      if row.provider == "manual_crypto" && row.status in PENDING
         && row.payCurrency.Some? && Upper(row.payCurrency.value) in aliases {
        if row.payload.Some? && row.payload.value.address == Some(address) {
          var amount := if row.payAmount.Some? then row.payAmount else row.payload.value.cryptoAmount;
          if amount.Some? {
            out := out + [amount.value];
          }
        }
      }
    }
    assert rows[..|rows|] == rows;
  }

  lemma {:induction false} SeenAmounts(rows: seq<Invoice>, currency: string, address: string, i: nat)
    requires i < |rows| && IsSeen(rows[i], currency, address) && AmountOf(rows[i]).Some?
    ensures AmountOf(rows[i]).value in PendingAmounts(rows, currency, address)
  {
    hide IsSeen, AmountOf;
    if i < |rows| - 1 {
      SeenAmounts(rows[..|rows| - 1], currency, address, i);
    }
  }

  /** A stored currency is among the aliases exactly when it is a spelling of the same currency with
      no space around it: the query compares upper case, and does not strip. */
  lemma SeenIff(stored: string, currency: string)
    requires IsAutoconfirmable(currency)
    ensures Upper(stored) in Aliases(currency)
            <==> CurrencyKey(stored) == CurrencyKey(currency) && Strip(stored) == stored
  {
    hide Strip, IsSpace;
    var a, b := StripSplits(stored);
    if Upper(stored) in Aliases(currency) {
      UpperStripped(stored);
      StripOfStripped(stored);
    }
  }

  /** So a row is seen when amounts are chosen exactly when the worker polls it for that currency. */
  lemma SeenIffPolled(stored: string, currency: string)
    requires IsAutoconfirmable(currency)
    ensures Upper(stored) in Aliases(currency)
            <==> Upper(stored) in AUTOCONFIRM && CurrencyKey(stored) == CurrencyKey(currency)
  {
    hide CurrencyKey, Strip;
    SeenIff(stored, currency);
    if Upper(stored) in AUTOCONFIRM {
      UpperStripped(stored);
      StripOfStripped(stored);
    }
  }

  /** Which rows are seen, in full. */
  lemma SeenRowIff(row: Invoice, currency: string, address: string)
    requires IsAutoconfirmable(currency)
    ensures IsSeen(row, currency, address) <==>
      && row.provider == "manual_crypto"
      && row.status in {"waiting_hash", "pending_approval", "waiting_receipt"}
      && row.payCurrency.Some? && CurrencyKey(row.payCurrency.value) == CurrencyKey(currency)
      && Strip(row.payCurrency.value) == row.payCurrency.value
      && row.payload.Some? && row.payload.value.address == Some(address)
  {
    hide Aliases, CurrencyKey, Strip, Upper;
    if row.payCurrency.Some? {
      SeenIff(row.payCurrency.value, currency);
    }
  }

  /** The amounts to avoid are those of the rows seen: the column's, or without one the payload's. */
  lemma {:induction false} CollectedIff(rows: seq<Invoice>, currency: string, address: string, amount: real)
    ensures amount in PendingAmounts(rows, currency, address) <==>
      exists i :: 0 <= i < |rows| && IsSeen(rows[i], currency, address)
                  && (rows[i].payAmount == Some(amount)
                      || (rows[i].payAmount.None? && rows[i].payload.value.cryptoAmount == Some(amount)))
  {
    hide IsPending, Aliases, Upper;
    if rows != [] {
      var before := rows[..|rows| - 1];
      CollectedIff(before, currency, address, amount);
      assert forall i :: 0 <= i < |before| ==> before[i] == rows[i];
    }
  }

  lemma UpperStripped(s: string)
    requires Upper(s) in AUTOCONFIRM
    ensures Stripped(s)
  {
    assert forall c :: IsSpace(UpperChar(c)) == IsSpace(c);
    assert Stripped(Upper(s));
    assert IsSpace(s[0]) == IsSpace(Upper(s)[0]) && IsSpace(s[|s| - 1]) == IsSpace(Upper(s)[|s| - 1]);
  }

  // ── Runs ──────────────────────────────────────────────────────────────────────────────────

  datatype Action =
    | Create(base: real, currency: string, address: string, draws: seq<int>)  // under the target's lock
    | CreateUnpriced(currency: string, address: string)                       // no price was available
    | SetStatus(i: nat, status: string)                                       // submitted, approved, rejected, …
    | Delete(i: nat)

  function NewInvoice(currency: string, address: string, amount: Option<real>): Invoice {
    Invoice("manual_crypto", "waiting_hash", Some(currency), amount, Some(Payload(Some(address), amount)))
  }

  /** Currencies that are not watched get their quantized price. A resolved row does not become
      pending again. */
  function Next(rows: seq<Invoice>, a: Action): seq<Invoice> {
    match a
    case Create(base, currency, address, draws) =>
      var amount := if IsAutoconfirmable(currency)
                    then UniqueAmount(base, currency, PendingAmounts(rows, currency, address), draws)
                    else Some(Quantize(base, currency));
      if amount.None? then rows else rows + [NewInvoice(currency, address, amount)]
    case CreateUnpriced(currency, address) => rows + [NewInvoice(currency, address, None)]
    case SetStatus(i, status) =>
      if i < |rows| && (IsPending(rows[i]) || status !in PENDING) then rows[i := rows[i].(status := status)] else rows
    case Delete(i) => if i < |rows| then rows[..i] + rows[i + 1..] else rows
  }

  function Run(rows: seq<Invoice>, actions: seq<Action>): seq<Invoice>
    decreases |actions|
  {
    if actions == [] then rows else Run(Next(rows, actions[0]), actions[1..])
  }

  ghost predicate WellFormed(a: Action) { a.Create? ==> AreDraws(a.draws) }

  /** The rows the worker polls, those waiting for an approval, which it leaves alone, included. */
  predicate IsPolled(row: Invoice) {
    && IsPending(row) && row.payCurrency.Some? && Upper(row.payCurrency.value) in AUTOCONFIRM
    && row.payload.Some? && row.payload.value.address.Some? && row.payAmount.Some?
  }

  /** Invoices that one incoming transfer could be meant for. */
  predicate SameTarget(r: Invoice, q: Invoice) {
    && IsPolled(r) && IsPolled(q)
    && CurrencyKey(r.payCurrency.value) == CurrencyKey(q.payCurrency.value)
    && r.payload.value.address == q.payload.value.address
  }

  predicate Apart(r: Invoice, q: Invoice) {
    SameTarget(r, q) ==> Units(r.payAmount.value, r.payCurrency.value) != Units(q.payAmount.value, q.payCurrency.value)
  }

  ghost predicate AllApart(rows: seq<Invoice>) {
    forall i, j :: 0 <= i < j < |rows| ==> Apart(rows[i], rows[j])
  }

  lemma SameScale(c: string, d: string, x: real)
    requires CurrencyKey(c) == CurrencyKey(d)
    ensures Scale(c) == Scale(d) && Units(x, c) == Units(x, d)
  {
  }

  lemma PolledIsAutoconfirmable(currency: string)
    requires Upper(currency) in AUTOCONFIRM
    ensures IsAutoconfirmable(currency)
  {
    UpperStripped(currency);
    StripOfStripped(currency);
  }

  /** A new invoice asks for the chosen amount if its currency is watched, for its quantized price if
      not, and is not written at all when no amount is free; one with an amount is polled exactly when
      its currency has no space around it. */
  lemma CreateAdds(rows: seq<Invoice>, base: real, currency: string, address: string, draws: seq<int>)
    ensures
      var watched := IsAutoconfirmable(currency);
      var chosen := UniqueAmount(base, currency, PendingAmounts(rows, currency, address), draws);
      var rows1 := Next(rows, Create(base, currency, address, draws));
      if watched && chosen.None? then rows1 == rows
      else
        && |rows1| == |rows| + 1 && rows1[..|rows|] == rows
        && var r := rows1[|rows|];
           && r.provider == "manual_crypto" && r.status == "waiting_hash" && r.payCurrency == Some(currency)
           && r.payAmount == (if watched then chosen else Some(Quantize(base, currency)))
           && r.payload == Some(Payload(Some(address), r.payAmount))
           && (IsPolled(r) <==> watched && Strip(currency) == currency)
  {
    hide UniqueAmount, Units, PendingAmounts, CurrencyKey, Strip, Upper;
    if Upper(currency) in AUTOCONFIRM {
      PolledIsAutoconfirmable(currency);
      UpperStripped(currency);
      StripOfStripped(currency);
    } else if IsAutoconfirmable(currency) && Strip(currency) == currency {
      SeenIff(currency, currency);
      SeenIffPolled(currency, currency);
    }
  }

  lemma CreateKeeps(rows: seq<Invoice>, a: Action)
    requires AllApart(rows) && a.Create? && WellFormed(a)
    ensures AllApart(Next(rows, a))
  {
    hide UniqueAmount, Units, CurrencyKey, PendingAmounts, Aliases;
    var rows1 := Next(rows, a);
    if |rows1| > |rows| {
      var existing := PendingAmounts(rows, a.currency, a.address);
      var r := rows1[|rows|];
      forall i | 0 <= i < |rows| ensures Apart(rows[i], r) {
        if SameTarget(rows[i], r) {
          PolledIsAutoconfirmable(a.currency);
          UniqueAmountIs(a.base, a.currency, existing, a.draws);
          SeenIffPolled(rows[i].payCurrency.value, a.currency);
          SeenAmounts(rows, a.currency, a.address, i);
          SameScale(rows[i].payCurrency.value, a.currency, rows[i].payAmount.value);
        }
      }
    }
  }

  lemma UnpricedIsApart(r: Invoice, currency: string, address: string)
    ensures Apart(r, NewInvoice(currency, address, None))
  {
  }

  lemma StatusKeepsApart(r: Invoice, q: Invoice, status: string)
    requires Apart(r, q)
    ensures IsPending(r) || status !in PENDING ==> Apart(r.(status := status), q)
    ensures IsPending(q) || status !in PENDING ==> Apart(r, q.(status := status))
  {
    hide Units;
  }

  lemma StatusKeeps(rows: seq<Invoice>, i: nat, status: string)
    requires AllApart(rows)
    ensures AllApart(Next(rows, SetStatus(i, status)))
  {
    hide Apart, IsPending;
    var rows1 := Next(rows, SetStatus(i, status));
    forall j, k | 0 <= j < k < |rows| ensures Apart(rows1[j], rows1[k]) {
      StatusKeepsApart(rows[j], rows[k], status);
    }
  }

  lemma DeleteKeeps(rows: seq<Invoice>, i: nat)
    requires AllApart(rows)
    ensures AllApart(Next(rows, Delete(i)))
  {
    hide Apart;
    var rows1 := Next(rows, Delete(i));
    forall j, k | 0 <= j < k < |rows1| ensures Apart(rows1[j], rows1[k]) {
      assert rows1[j] == rows[if i < |rows| && j >= i then j + 1 else j];
      assert rows1[k] == rows[if i < |rows| && k >= i then k + 1 else k];
    }
  }

  lemma NextKeeps(rows: seq<Invoice>, a: Action)
    requires AllApart(rows) && WellFormed(a)
    ensures AllApart(Next(rows, a))
  {
    match a
    case Create(_, _, _, _) => CreateKeeps(rows, a);
    case CreateUnpriced(currency, address) =>
      hide Apart;
      forall i | 0 <= i < |rows| {
        UnpricedIsApart(rows[i], currency, address);
      }
    case SetStatus(i, status) => StatusKeeps(rows, i, status);
    case Delete(i) => DeleteKeeps(rows, i);
  }

  lemma {:induction false} RunKeeps(rows: seq<Invoice>, actions: seq<Action>)
    requires AllApart(rows) && forall i :: 0 <= i < |actions| ==> WellFormed(actions[i])
    ensures AllApart(Run(rows, actions))
    decreases |actions|
  {
    if actions != [] {
      NextKeeps(rows, actions[0]);
      RunKeeps(Next(rows, actions[0]), actions[1..]);
    }
  }

  /** Over every run, whatever currencies are configured, an incoming transfer to an address matches at
      most one of the invoices the worker polls for its currency and address. */
  lemma TransferMatchesOne(actions: seq<Action>, currency: string, sent: real, i: nat, j: nat)
    requires forall k :: 0 <= k < |actions| ==> WellFormed(actions[k])
    requires
      var rows := Run([], actions);
      && i < |rows| && j < |rows| && SameTarget(rows[i], rows[j])
      && CurrencyKey(rows[i].payCurrency.value) == CurrencyKey(currency)
      && AmountMatches(currency, rows[i].payAmount.value, sent)
      && AmountMatches(currency, rows[j].payAmount.value, sent)
    ensures i == j
  {
    hide Units, CurrencyKey, Run, Strip;
    var rows := Run([], actions);
    RunKeeps([], actions);
    MatchesIff(currency, rows[i].payAmount.value, sent);
    MatchesIff(currency, rows[j].payAmount.value, sent);
    SameScale(currency, rows[i].payCurrency.value, rows[i].payAmount.value);
    SameScale(currency, rows[j].payCurrency.value, rows[j].payAmount.value);
  }
}
