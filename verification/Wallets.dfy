/** The wallet manager (services/wallet/manager.py): the only code that moves money.
    Amounts are whole units of 10^-8 dollars, the scale of every money column. */
module Wallets {
  import opened Options

  datatype Direction = Credit | Debit
  datatype Kind = Deposit | Purchase | RenewalCharge | Refund | Adjustment

  /** One ledger row. `cause` is the payment whose delivery posted it, if any. */
  datatype LedgerRow = LedgerRow(
    kind: Kind, direction: Direction, amount: int, before: int, after: int, cause: Option<nat>)
  {
    function Signed(): int { if direction == Credit then amount else -amount }
  }

  datatype Account = Account(balance: int, creditLimit: int, ledger: seq<LedgerRow>)

  predicate DepositExists(ledger: seq<LedgerRow>, cause: Option<nat>) {
    exists i :: 0 <= i < |ledger|
                && ledger[i].kind == Deposit && ledger[i].direction == Credit && ledger[i].cause == cause
  }

  /** All-or-nothing: `None` stands for each raised error (non-positive amount, overdrawn
      wallet, second deposit of one payment, or a database failure, `dbOk == false`). */
  function Post(a: Account, amount: int, kind: Kind, direction: Direction, cause: Option<nat>, dbOk: bool)
    : (r: Option<Account>)
  {
    var after := if direction == Credit then a.balance + amount else a.balance - amount;
    if amount <= 0 || !dbOk then None
    else if direction == Debit && after < -a.creditLimit then None
    else if kind == Deposit && direction == Credit && cause.Some? && DepositExists(a.ledger, cause) then None
    else Some(a.(balance := after,
                 ledger := a.ledger + [LedgerRow(kind, direction, amount, a.balance, after, cause)]))
  }

  /** Every row continues from the balance the previous one left, from `opening` to `balance`. */
  ghost predicate Chained(opening: int, ledger: seq<LedgerRow>, balance: int) {
    if ledger == [] then opening == balance
    else
      var row := ledger[|ledger| - 1];
      && row.amount > 0
      && row.after == balance
      && row.after == row.before + row.Signed()
      && Chained(opening, ledger[..|ledger| - 1], row.before)
  }

  ghost function NetOf(ledger: seq<LedgerRow>, cause: Option<nat>): int {
    if ledger == [] then 0
    else
      var row := ledger[|ledger| - 1];
      NetOf(ledger[..|ledger| - 1], cause) + (if row.cause == cause then row.Signed() else 0)
  }

  ghost function CountOf(ledger: seq<LedgerRow>, cause: Option<nat>, kinds: set<Kind>): nat {
    if ledger == [] then 0
    else
      var row := ledger[|ledger| - 1];
      CountOf(ledger[..|ledger| - 1], cause, kinds) + (if row.cause == cause && row.kind in kinds then 1 else 0)
  }

  /** A posting that goes through adds one row, moves the balance by it, never takes a debited
      wallet below its credit line, and touches the sums of no other cause. */
  lemma PostEffect(a: Account, amount: int, kind: Kind, direction: Direction, cause: Option<nat>, dbOk: bool,
                   opening: int, other: Option<nat>, kinds: set<Kind>)
    requires Chained(opening, a.ledger, a.balance)
    requires Post(a, amount, kind, direction, cause, dbOk).Some?
    ensures
      var b := Post(a, amount, kind, direction, cause, dbOk).value;
      var signed := if direction == Credit then amount else -amount;
      && amount > 0
      && Chained(opening, b.ledger, b.balance)
      && b.creditLimit == a.creditLimit
      && (a.balance >= -a.creditLimit ==> b.balance >= -b.creditLimit)
      && NetOf(b.ledger, other) == NetOf(a.ledger, other) + (if other == cause then signed else 0)
      && CountOf(b.ledger, other, kinds)
         == CountOf(a.ledger, other, kinds) + (if other == cause && kind in kinds then 1 else 0)
  {
    var b := Post(a, amount, kind, direction, cause, dbOk).value;
    assert b.ledger[..|b.ledger| - 1] == a.ledger;
  }

  /** Exactly which postings go through: a debit that the balance and the credit line cover, and a
      credit that is not the second deposit of one payment. */
  lemma PostIff(a: Account, amount: int, kind: Kind, direction: Direction, cause: Option<nat>, dbOk: bool)
    ensures Post(a, amount, kind, direction, cause, dbOk).Some? <==>
      && dbOk && 0 < amount
      && match direction
         case Debit => amount <= a.balance + a.creditLimit
         case Credit => kind != Deposit || cause.None? ||
                        forall i :: 0 <= i < |a.ledger| && a.ledger[i].cause == cause ==>
                                      a.ledger[i].kind != Deposit || a.ledger[i].direction != Credit
  {
  }

  /** What is written: one row at the end, with the balance before and after. */
  lemma PostedRow(a: Account, amount: int, kind: Kind, direction: Direction, cause: Option<nat>, dbOk: bool)
    requires Post(a, amount, kind, direction, cause, dbOk).Some?
    ensures
      var b := Post(a, amount, kind, direction, cause, dbOk).value;
      && b.balance == a.balance + (if direction == Debit then -amount else amount)
      && b.ledger == a.ledger + [LedgerRow(kind, direction, amount, a.balance, b.balance, cause)]
  {
  }

  /** The balance is always the opening balance plus the signed sum of the whole ledger. */
  ghost function Total(ledger: seq<LedgerRow>): int {
    if ledger == [] then 0 else Total(ledger[..|ledger| - 1]) + ledger[|ledger| - 1].Signed()
  }

  lemma {:induction false} ChainedTotal(opening: int, ledger: seq<LedgerRow>, balance: int)
    requires Chained(opening, ledger, balance)
    ensures balance == opening + Total(ledger)
  {
    if ledger != [] {
      ChainedTotal(opening, ledger[..|ledger| - 1], ledger[|ledger| - 1].before);
    }
  }

  class Wallet {
    var balance: int
    var creditLimit: int
    var ledger: seq<LedgerRow>

    constructor (creditLimit: int)
      ensures Row() == Account(0, creditLimit, [])
    {
      balance, this.creditLimit, ledger := 0, creditLimit, [];
    }

    function Row(): Account
      reads this
    {
      Account(balance, creditLimit, ledger)
    }

    method ProcessTransaction(amount: int, kind: Kind, direction: Direction, cause: Option<nat>, dbOk: bool)
      returns (ok: bool)
      modifies this
      ensures ok == Post(old(Row()), amount, kind, direction, cause, dbOk).Some?
      ensures direction == Debit ==> (ok <==> dbOk && 0 < amount <= old(balance) + old(creditLimit))
      ensures ok ==> balance == old(balance) + (if direction == Debit then -amount else amount)
      ensures Row() == if ok then Post(old(Row()), amount, kind, direction, cause, dbOk).value else old(Row())
    {
      if amount <= 0 || !dbOk {
        return false;
      }
      var before := balance;
      var after := if direction == Credit then before + amount else before - amount;
      if direction == Debit && after < -creditLimit {
        return false;
      }
      if kind == Deposit && direction == Credit && cause.Some? && DepositExists(ledger, cause) {
        return false;
      }
      balance := after;
      ledger := ledger + [LedgerRow(kind, direction, amount, before, after, cause)];
      return true;
    }

    /** Leaving a savepoint through an exception: the wallet row and its ledger come back. */
    method RollbackTo(saved: Account)
      modifies this
      ensures Row() == saved
    {
      balance, creditLimit, ledger := saved.balance, saved.creditLimit, saved.ledger;
    }
  }
}
