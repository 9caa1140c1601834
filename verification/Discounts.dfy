/** Discount codes (repositories/discount.py). */
module Discounts {
  import opened Options

  datatype Code = Code(used: int, maxUses: int, active: bool, expiresAt: Option<int>, planId: Option<nat>)

  /** Why a slot is refused, in the order in which the locked row is checked. */
  predicate Refused(c: Code, now: int, planId: Option<nat>) {
    || !c.active
    || c.used >= c.maxUses
    || (c.expiresAt.Some? && c.expiresAt.value < now)
    || (c.planId.Some? && planId.Some? && c.planId != planId)
  }

  function Use(c: Code, now: int, planId: Option<nat>): (Code, bool) {
    if Refused(c, now, planId) then (c, false)
    else (c.(used := c.used + 1, active := c.active && c.used + 1 < c.maxUses), true)
  }

  class DiscountCode {
    var used: int
    var maxUses: int
    var active: bool
    var expiresAt: Option<int>
    var planId: Option<nat>

    function Row(): Code
      reads this
    {
      Code(used, maxUses, active, expiresAt, planId)
    }

    constructor (maxUses: int, expiresAt: Option<int>, planId: Option<nat>)
      ensures Row() == Code(0, maxUses, true, expiresAt, planId)
    {
      used, this.maxUses, active := 0, maxUses, true;
      this.expiresAt, this.planId := expiresAt, planId;
    }

    method UseCode(now: int, plan: Option<nat>) returns (consumed: bool)
      modifies this
      ensures (Row(), consumed) == Use(old(Row()), now, plan)
    {
      if !active {
        return false;
      }
      if used >= maxUses {
        return false;
      }
      if expiresAt.Some? && expiresAt.value < now {
        return false;
      }
      if planId.Some? && plan.Some? && planId != plan {
        return false;
      }
      used := used + 1;
      if used >= maxUses {
        active := false;
      }
      return true;
    }
  }

  /** A run of attempts, each with its own clock reading and plan; the result counts the slots given. */
  function UseAll(c: Code, attempts: seq<(int, Option<nat>)>): (Code, nat) {
    if attempts == [] then (c, 0)
    else
      var (mid, n) := UseAll(c, attempts[..|attempts| - 1]);
      var last := attempts[|attempts| - 1];
      var (end, ok) := Use(mid, last.0, last.1);
      (end, if ok then n + 1 else n)
  }

  /** Attempts the date and the plan of the code allow. */
  function Eligible(c: Code, attempts: seq<(int, Option<nat>)>): nat {
    if attempts == [] then 0
    else
      var last := attempts[|attempts| - 1];
      Eligible(c, attempts[..|attempts| - 1])
      + if (c.expiresAt.None? || last.0 <= c.expiresAt.value)
           && (c.planId.None? || last.1.None? || last.1 == c.planId) then 1 else 0
  }

  /** A code never gives out more slots than it has: over any run the counter moves by exactly the
      slots given and stays within `maxUses`, and a live code gives one slot per attempt its date and
      plan allow until it runs out, then none, and is switched off with its last slot. */
  lemma {:induction false} SlotsAreBounded(c: Code, attempts: seq<(int, Option<nat>)>)
    requires 0 <= c.used <= c.maxUses
    ensures
      var (end, given) := UseAll(c, attempts);
      && end.used == c.used + given
      && end.used <= end.maxUses == c.maxUses
      && (end.expiresAt, end.planId) == (c.expiresAt, c.planId)
      && (c.active ==>
            && given == (if Eligible(c, attempts) <= c.maxUses - c.used then Eligible(c, attempts)
                         else c.maxUses - c.used)
            && (end.active <==> given < c.maxUses - c.used || given == 0))
      && (!c.active ==> given == 0 && end == c)
  {
    if attempts != [] {
      SlotsAreBounded(c, attempts[..|attempts| - 1]);
    }
  }

  /** A code that is switched off, used up, past its date at every attempt, or meant for another
      plan than every attempt names, gives nothing and stays as it is. */
  lemma {:induction false} DeadCodeGivesNothing(c: Code, attempts: seq<(int, Option<nat>)>)
    requires
      || !c.active
      || c.used >= c.maxUses
      || (c.expiresAt.Some? && forall i :: 0 <= i < |attempts| ==> attempts[i].0 > c.expiresAt.value)
      || (c.planId.Some? && forall i :: 0 <= i < |attempts| ==> attempts[i].1.Some? && attempts[i].1 != c.planId)
    ensures UseAll(c, attempts) == (c, 0)
  {
    if attempts != [] {
      DeadCodeGivesNothing(c, attempts[..|attempts| - 1]);
    }
  }
}
