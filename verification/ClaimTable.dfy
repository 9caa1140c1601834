/** Claims on chain transactions, and every run of deliveries and deletions of manual crypto payments
    (services/crypto_claims.py, models/crypto_claim.py, services/payment.py). */
module ClaimTable {
  import opened Options
  import opened Texts
  import opened CryptoClaims

  /** A value of the payment's JSON payload. `OtherType`: not a string, and not a false value. */
  datatype Field = Missing | Text(text: string) | OtherType

  datatype Payment = Payment(id: int, payCurrency: Option<string>, payloadHash: Field, providerId: Option<string>)

  /** `payment_id` is set to null when the payment is deleted. */
  type Rows = map<Key, Option<int>>

  function QuotedHash(p: Payment): Field {
    if p.payloadHash != Missing && p.payloadHash != Text("") then p.payloadHash
    else if p.providerId.Some? then Text(p.providerId.value) else Missing
  }

  function CurrencyOf(p: Payment): string {
    if p.payCurrency.None? || p.payCurrency.value == "" then "Crypto" else p.payCurrency.value
  }

  /** The claim a payment makes; `None` when it quotes no usable transaction. */
  function Wanted(p: Payment): Option<Key> {
    var quoted := QuotedHash(p);
    if !quoted.Text? || Strip(quoted.text) == "" then None
    else
      var key := TransactionKey(CurrencyOf(p), quoted.text);
      if |key.chain| > 32 || |key.hash| > 200 then None else Some(key)
  }

  predicate MayClaim(rows: Rows, p: Payment) {
    Wanted(p).Some? && (Wanted(p).value in rows ==> rows[Wanted(p).value] == Some(p.id))
  }

  function Claimed(rows: Rows, p: Payment): Rows
    requires MayClaim(rows, p)
  {
    rows[Wanted(p).value := Some(p.id)]
  }

  function Orphaned(rows: Rows, id: int): Rows {
    map key | key in rows :: if rows[key] == Some(id) then None else rows[key]
  }

  class ClaimStore {
    var rows: Rows

    constructor ()
      ensures rows == map[]
    {
      rows := map[];
    }

    /** `INSERT … ON CONFLICT DO NOTHING RETURNING payment_id`. */
    method InsertOrIgnore(key: Key, id: int) returns (claimed: Option<int>)
      modifies this
      ensures claimed == if key in old(rows) then None else Some(id)
      ensures rows == if key in old(rows) then old(rows) else old(rows)[key := Some(id)]
    {
      if key in rows {
        return None;
      }
      rows := rows[key := Some(id)];
      return Some(id);
    }

    /** `ok == false`: the claim raised, and nothing was written. */
    method Claim(p: Payment) returns (ok: bool)
      modifies this
      ensures ok == MayClaim(old(rows), p)
      ensures rows == if ok then Claimed(old(rows), p) else old(rows)
    {
      var quoted := p.payloadHash;
      if quoted == Missing || quoted == Text("") {
        quoted := if p.providerId.Some? then Text(p.providerId.value) else Missing;
      }
      if !quoted.Text? || Strip(quoted.text) == "" {
        return false;
      }
      var currency := if p.payCurrency.Some? && p.payCurrency.value != "" then p.payCurrency.value else "Crypto";
      var key := TransactionKey(currency, quoted.text);
      if |key.chain| > 32 || |key.hash| > 200 {
        return false;
      }
      var claimed := InsertOrIgnore(key, p.id);
      if claimed.Some? {
        return true;
      }
      ok := rows[key] == Some(p.id);
      assert ok ==> rows == rows[key := Some(p.id)];
    }

    /** `ON DELETE SET NULL`. */
    method DeletePayment(id: int)
      modifies this
      ensures rows.Keys == old(rows).Keys && rows == Orphaned(old(rows), id)
    {
      rows := map key | key in rows :: if rows[key] == Some(id) then None else rows[key];
    }
  }

  // ── Runs ──────────────────────────────────────────────────────────────────────────────────

  /** `creditRaises`: the wallet credit after the claim raised; `committed`: the caller swallowed that
      and committed the claim. */
  datatype Event =
    | Deliver(p: Payment, creditRaises: bool, committed: bool)
    | Delete(id: int)

  datatype Credit = Credit(key: Key, payment: int)

  /** `paid`: the payments with `actually_paid` set. */
  datatype System = System(rows: Rows, paid: set<int>, credits: seq<Credit>)

  function Next(s: System, e: Event): System {
    match e
    case Delete(id) => s.(rows := Orphaned(s.rows, id), paid := s.paid - {id})
    case Deliver(p, creditRaises, committed) =>
      if p.id in s.paid || !MayClaim(s.rows, p) then s
      else if creditRaises then if committed then s.(rows := Claimed(s.rows, p)) else s
      else System(Claimed(s.rows, p), s.paid + {p.id}, s.credits + [Credit(Wanted(p).value, p.id)])
  }

  function Run(s: System, events: seq<Event>): System
    decreases |events|
  {
    if events == [] then s else Run(Next(s, events[0]), events[1..])
  }

  const START := System(map[], {}, [])

  ghost predicate Inv(s: System) {
    && (forall i :: 0 <= i < |s.credits| ==>
          var c := s.credits[i];
          c.key in s.rows && (s.rows[c.key].None? || (s.rows[c.key] == Some(c.payment) && c.payment in s.paid)))
    && (forall i, j :: 0 <= i < j < |s.credits| ==> s.credits[i].key != s.credits[j].key)
  }

  lemma NextKeeps(s: System, e: Event)
    requires Inv(s)
    ensures Inv(Next(s, e))
  {
    hide Wanted;
  }

  lemma {:induction false} RunKeeps(s: System, events: seq<Event>)
    requires Inv(s)
    ensures Inv(Run(s, events))
    decreases |events|
  {
    if events != [] {
      NextKeeps(s, events[0]);
      RunKeeps(Next(s, events[0]), events[1..]);
    }
  }

  /** Over every run of deliveries, retries and deletions, a chain transaction is credited at most
      once, to one payment, whatever becomes of that payment and whatever id comes later. */
  lemma EachTransactionFundsOnce(events: seq<Event>, i: nat, j: nat)
    requires i < |Run(START, events).credits| && j < |Run(START, events).credits|
    requires Run(START, events).credits[i].key == Run(START, events).credits[j].key
    ensures i == j
  {
    RunKeeps(START, events);
  }

  predicate Deletes(events: seq<Event>, id: int) { Delete(id) in events }

  /** A claim stays with its owner until the owner is deleted, and is then nobody's for ever. */
  lemma {:induction false} ClaimStays(s: System, events: seq<Event>, key: Key)
    requires key in s.rows
    ensures
      var end := Run(s, events);
      && key in end.rows
      && end.rows[key] == if s.rows[key].Some? && Deletes(events, s.rows[key].value) then None else s.rows[key]
    decreases |events|
  {
    if events != [] {
      hide Wanted;
      var next := Next(s, events[0]);
      ClaimStays(next, events[1..], key);
      assert events == [events[0]] + events[1..];
    }
  }

  /** Once a payment has claimed, whether or not its credit went through then: later it may claim
      again unless it was deleted meanwhile, and no other payment ever may. */
  lemma OwnerRetriesOthersDoNot(s: System, p: Payment, events: seq<Event>, q: Payment)
    requires MayClaim(s.rows, p) && p.id !in s.paid && Wanted(q) == Wanted(p)
    ensures
      var claimed := Next(s, Deliver(p, true, true));
      MayClaim(Run(claimed, events).rows, q) <==> q.id == p.id && !Deletes(events, p.id)
  {
    hide Wanted;
    ClaimStays(Next(s, Deliver(p, true, true)), events, Wanted(p).value);
  }

  // ── One transaction quoted twice ──────────────────────────────────────────────────────────

  /** The two quotations are one transaction to the claims table. */
  predicate OneTransaction(c: string, u: string, d: string, v: string) {
    && Chain(c) == Chain(d)
    && if Chain(c) in CASELESS_CHAINS then SameText(u, v)
       else if Chain(c) == "TON" then SameTon(Strip(u), Strip(v))
       else Strip(u) == Strip(v)
  }

  /** Two payments are both credited exactly when their quotations differ in the chain their currencies
      stand for; or in more than case and outer space, on a listed chain; or in the bytes denoted, on
      TON; or in more than outer space, elsewhere. */
  lemma CreditedTwiceIff(p: Payment, q: Payment)
    requires p.id != q.id && Wanted(p).Some? && Wanted(q).Some?
    ensures |Run(START, [Deliver(p, false, true), Deliver(q, false, true)]).credits| == 2
            <==> !OneTransaction(CurrencyOf(p), QuotedHash(p).text, CurrencyOf(q), QuotedHash(q).text)
  {
    KeyIff(CurrencyOf(p), QuotedHash(p).text, CurrencyOf(q), QuotedHash(q).text);
    var first := Next(START, Deliver(p, false, true));
    assert first.rows == map[Wanted(p).value := Some(p.id)];
    assert Wanted(p).value == Wanted(q).value
           <==> OneTransaction(CurrencyOf(p), QuotedHash(p).text, CurrencyOf(q), QuotedHash(q).text);
    hide Wanted, OneTransaction, Run;
    RunTwo(START, Deliver(p, false, true), Deliver(q, false, true));
  }

  lemma RunTwo(s: System, a: Event, b: Event)
    ensures Run(s, [a, b]) == Next(Next(s, a), b)
  {
    hide Next;
    assert [a, b][1..] == [b] && [b][1..] == [];
    assert Run(Next(s, a), [b]) == Run(Next(Next(s, a), b), []);
  }

  /** So it happens: one MATIC transaction, quoted in capitals and in small letters, funds two payments. */
  lemma UnlistedFundsTwice()
    ensures
      var p := Payment(1, Some("MATIC"), Text("0xAB"), None);
      var q := Payment(2, Some("MATIC"), Text("0xab"), None);
      |Run(START, [Deliver(p, false, true), Deliver(q, false, true)]).credits| == 2
  {
    var p, q := Payment(1, Some("MATIC"), Text("0xAB"), None), Payment(2, Some("MATIC"), Text("0xab"), None);
    UnlistedKeepsCase();
    StripOfStripped("0xAB");
    StripOfStripped("0xab");
    hide Chain, TransactionKey, SameText, Strip, Lower, Run;
    KeyIff("MATIC", "0xAB", "MATIC", "0xab");
    CreditedTwiceIff(p, q);
  }

  /** And one BSC transaction, quoted alike under a name on the list and under one off it. */
  lemma UnlistedNameFundsTwice()
    ensures
      var p := Payment(1, Some("USDT BEP20"), Text("0xab"), None);
      var q := Payment(2, Some("USDT (BEP20)"), Text("0xab"), None);
      |Run(START, [Deliver(p, false, true), Deliver(q, false, true)]).credits| == 2
  {
    var p := Payment(1, Some("USDT BEP20"), Text("0xab"), None);
    var q := Payment(2, Some("USDT (BEP20)"), Text("0xab"), None);
    UnlistedNameIsAnotherChain();
    StripOfStripped("0xab");
    hide Chain, SameText, Strip, Lower, Run;
    CreditedTwiceIff(p, q);
  }

  /** Which transaction a payment quotes: the hash in its payload, if there is one that is not empty,
      and the provider's id otherwise; a payload value that is no text is never replaced by it. */
  lemma QuotedIs(p: Payment)
    ensures
      var hash := match p.payloadHash
                  case Text(t) => if t == "" then p.providerId else Some(t)
                  case Missing => p.providerId
                  case OtherType => None;
      && (hash.None? ==> Wanted(p).None?)
      && (hash.Some? && Wanted(p).Some? ==>
            var currency := if p.payCurrency.Some? && p.payCurrency.value != "" then p.payCurrency.value else "Crypto";
            Wanted(p).value == TransactionKey(currency, hash.value))
      && (hash.Some? ==> (Wanted(p).None? <==>
            || Strip(hash.value) == ""
            || |TransactionKey(CurrencyOf(p), hash.value).chain| > 32
            || |TransactionKey(CurrencyOf(p), hash.value).hash| > 200))
  {
    hide TransactionKey, Strip;
  }
}
