/** The Toman the mini-app shows (miniapp/js/money.js) and the Toman the bot computes
    (core/formatting.py): the one divides exactly, the other keeps 28 digits of the product. */
module TomanAgreement {
  import opened Options
  import opened Decimals
  import Formatting
  import Money

  /** The digits that the bot's decimal context drops from a product `c`, worth less than `lost`,
      change no whole Toman: the fraction stays below one, or was not to be rounded away. */
  predicate SurvivesContext(c: nat, lost: nat, d: nat)
    requires lost > 0 && d > 0
  {
    if lost > d then c % lost < d
    else 2 * (d - c % d) > lost || (lost == d && 2 * (c % d) == d && c / d % 2 == 0)
  }

  lemma NextQuotient(q: nat, m: nat)
    requires m > 0
    ensures (q + 1) / m == q / m <==> q % m != m - 1
  {
    DivisionIs(q, m);
    if q % m == m - 1 {
      assert (q / m + 1) * m == q + 1;
      FloorIs(q + 1, m, q / m + 1);
    } else {
      FloorIs(q + 1, m, q / m);
    }
  }

  lemma DroppedRemainder(c: nat, lost: nat, m: nat)
    requires lost > 0 && m > 0
    ensures c % (lost * m) == (c / lost % m) * lost + c % lost && c / (lost * m) == c / lost / m
  {
    var q, s := c / lost, c % lost;
    NestedDivision(c, lost, m);
    DivisionIs(c, lost);
    DivisionIs(q, m);
    DivisionIs(c, lost * m);
    Regroup(q / m, lost, m, q % m, s);
  }

  /** `up`: the rounded quotient is `q + 1`; `low` is what is missing to the next multiple of `d`. */
  lemma FineCases(q: nat, s: nat, up: bool, m: nat, lost: nat, d: nat, r: nat, low: int, last: bool)
    requires s < lost && r < d && low == d - r && (m == 1 || m % 2 == 0)
    requires up <==> !(2 * s < lost || (2 * s == lost && q % 2 == 0))
    requires if last then low == lost - s else low >= 2 * lost - s
    requires lost == d <==> m == 1
    requires m == 1 ==> last && r == s
    requires last && m % 2 == 0 ==> q % 2 == 1
    ensures !(up && last) <==> 2 * low > lost || (m == 1 && 2 * r == d && q % 2 == 0)
  {
  }

  lemma KeptQuotient(h: nat, lost: nat, m: nat)
    requires lost > 0 && m > 0
    ensures lost * m > 0 && h * lost / (lost * m) == h / m
  {
    NestedDivision(h * lost, lost, m);
    FloorIs(h * lost, lost, h);
  }

  lemma ToNextMultiple(c: nat, lost: nat, m: nat)
    requires lost > 0 && m > 0
    ensures lost * m > 0
    ensures
      var low := lost * m - c % (lost * m);
      var last := c / lost % m == m - 1;
      (if last then low == lost - c % lost else low >= 2 * lost - c % lost) && (m == 1 ==> c % (lost * m) == c % lost)
  {
    DroppedRemainder(c, lost, m);
    var left := m - c / lost % m;
    assert left * lost == m * lost - (c / lost % m) * lost;
    Multiples(left, lost);
  }

  /** Rounding to multiples of `lost`, of which `d` holds `m`. */
  lemma TruncOfKeptFine(c: nat, lost: nat, d: nat, m: nat)
    requires lost > 0 && m > 0 && (m == 1 || m % 2 == 0) && d == lost * m
    ensures 0 < lost <= d
    ensures HalfEvenDiv(c, lost) * lost / d == c / d <==> SurvivesContext(c, lost, d)
  {
    var q, h := c / lost, HalfEvenDiv(c, lost);
    Multiples(m, lost);
    KeptQuotient(h, lost, m);
    KeptQuotient(q, lost, m);
    DroppedRemainder(c, lost, m);
    NextQuotient(q, m);
    EvenModulus(q, m);
    ToNextMultiple(c, lost, m);
    var up, last := h == q + 1, q % m == m - 1;
    FineCases(q, c % lost, up, m, lost, d, c % d, d - c % d, last);
    assert m == 1 ==> q == c / d;
    assert h * lost / d == c / d <==> !(up && last);
    hide HalfEvenDiv;
  }

  lemma EvenModulus(q: nat, m: nat)
    requires m > 0
    ensures m % 2 == 0 ==> q % m % 2 == q % 2
  {
    DivisionIs(q, m);
    if m % 2 == 0 {
      var k := m / 2;
      assert q / m * m == 2 * (q / m * k);
    }
  }

  lemma CoarseQuotient(h: nat, d: nat, m: nat)
    requires d > 0
    ensures h * (d * m) / d == h * m && h * (d * m) % d == 0
  {
    assert h * (d * m) == h * m * d;
    FloorIs(h * (d * m), d, h * m);
    DivisionIs(h * (d * m), d);
  }

  lemma CloseMultiple(c: nat, d: nat, x: nat)
    requires d > 0 && x % d == 0
    ensures x / d == c / d <==> x <= c < x + d
  {
    DivisionIs(x, d);
    DivisionIs(c, d);
    var g := x / d;
    if x <= c < x + d {
      FloorIs(c, d, g);
    }
  }

  lemma CoarseCases(c: nat, lost: nat, d: nat, s: nat, below: nat, x: nat, even: bool)
    requires 0 < 2 * d <= lost && s < lost && c == below + s
    requires x == if 2 * s < lost || (2 * s == lost && even) then below else below + lost
    ensures x <= c < x + d <==> s < d
  {
  }

  lemma KeptIs(c: nat, lost: nat)
    requires lost > 0
    ensures
      var s := c % lost;
      && s < lost && s <= c
      && HalfEvenDiv(c, lost) * lost == c - s + if 2 * s < lost || (2 * s == lost && c / lost % 2 == 0) then 0 else lost
  {
    DivisionIs(c, lost);
    assert (c / lost + 1) * lost == c / lost * lost + lost;
  }

  lemma CoarseMultiple(h: nat, lost: nat, d: nat, m: nat)
    requires d > 0 && m >= 2 && lost == d * m
    ensures lost >= 2 * d && h * lost >= 0 && h * lost % d == 0
  {
    CoarseQuotient(h, d, m);
    Multiples(m, d);
    Grow(0, h, lost);
  }

  lemma CoarseSurvives(c: nat, lost: nat, d: nat, kept: nat, s: nat, even: bool)
    requires d > 0 && lost >= 2 * d && kept % d == 0 && s < lost && s <= c
    requires kept == c - s + if 2 * s < lost || (2 * s == lost && even) then 0 else lost
    ensures kept / d == c / d <==> s < d
  {
    CloseMultiple(c, d, kept);
    CoarseCases(c, lost, d, s, c - s, kept, even);
  }

  lemma CoarseCondition(c: nat, lost: nat, d: nat)
    requires lost > 0 && d > 0
    ensures HalfEvenDiv(c, lost) >= 0
    ensures lost > d ==> (SurvivesContext(c, lost, d) <==> c % lost < d)
  {
  }

  /** Rounding to multiples of `lost`, which is itself `m` times `d`. */
  lemma TruncOfKeptCoarse(c: nat, lost: nat, d: nat, m: nat)
    requires d > 0 && m >= 2 && lost == d * m
    ensures lost > d
    ensures HalfEvenDiv(c, lost) * lost / d == c / d <==> SurvivesContext(c, lost, d)
  {
    hide HalfEvenDiv, SurvivesContext;
    CoarseCondition(c, lost, d);
    CoarseMultiple(0, lost, d, m);
    KeptIs(c, lost);
    var h, even := HalfEvenDiv(c, lost), c / lost % 2 == 0;
    CoarseMultiple(h, lost, d, m);
    CoarseSurvives(c, lost, d, h * lost, c % lost, even);
  }

  lemma {:induction false} LostIsPower(c: nat) returns (e: nat)
    ensures Lost(c) == Pow10(e)
  {
    if Fits(c) {
      e := 0;
    } else {
      assert c > 0;
      var e1 := LostIsPower(c / 10);
      e := e1 + 1;
    }
  }

  lemma PowerIsEven(k: nat)
    requires k > 0
    ensures Pow10(k) >= 2 && Pow10(k) % 2 == 0
  {
  }

  lemma KeptDivides(c: nat, k: nat)
    ensures Kept(c) / Pow10(k) == c / Pow10(k) <==> SurvivesContext(c, Lost(c), Pow10(k))
  {
    hide Pow10, HalfEvenDiv, Lost, SurvivesContext;
    SmallPowers();
    var e := LostIsPower(c);
    var lost, d := Lost(c), Pow10(k);
    if e <= k {
      PowersMultiply(e, k - e);
      var m := Pow10(k - e);
      if e < k {
        PowerIsEven(k - e);
      }
      TruncOfKeptFine(c, lost, d, m);
    } else {
      PowersMultiply(k, e - k);
      PowerIsEven(e - k);
      TruncOfKeptCoarse(c, lost, d, Pow10(e - k));
    }
  }

  lemma KeptOdd(c: int)
    requires c >= 0
    ensures Kept(c) >= 0 && Kept(-c) == -Kept(c)
  {
    hide Lost;
    var lost := Lost(c);
    HalfEvenOdd(c, lost);
    assert HalfEvenDiv(c, lost) >= 0;
    assert -HalfEvenDiv(c, lost) * lost == -(HalfEvenDiv(c, lost) * lost);
  }

  lemma TruncOfKept(x: int, k: nat)
    ensures TruncDiv(Kept(x), Pow10(k)) == TruncDiv(x, Pow10(k)) <==> SurvivesContext(Abs(x), Lost(Abs(x)), Pow10(k))
  {
    hide Pow10, Lost, SurvivesContext, Kept;
    KeptDivides(Abs(x), k);
    KeptOdd(Abs(x));
  }

  /** For every amount and rate, debts included: the mini-app and the bot give the same Toman exactly
      when the digits beyond the 28th do not matter. */
  lemma TomanAgreesIff(text: string, rate: nat)
    requires Money.Decimal(text).Some?
    ensures
      var f := Money.Decimal(text).value;
      var c := Abs(f.n * rate);
      && f.d > 0
      && (Money.Toman(text, rate) == Some(Formatting.UsdToToman(f.n, |Money.FractionOf(text)|, rate))
          <==> SurvivesContext(c, Lost(c), f.d))
  {
    hide Money.Decimal, Pow10, Lost, SurvivesContext, Kept, TruncDiv;
    var f := Money.Decimal(text).value;
    Money.DecimalIs(text);
    TruncOfKept(f.n * rate, |Money.FractionOf(text)|);
  }

  /** In particular whenever the product has at most 28 digits. */
  lemma TomanAgrees(text: string, rate: nat)
    requires Money.Decimal(text).Some? && Fits(Money.Decimal(text).value.n * rate)
    ensures Money.Toman(text, rate) ==
            Some(Formatting.UsdToToman(Money.Decimal(text).value.n, |Money.FractionOf(text)|, rate))
  {
    hide Money.Decimal, Pow10;
    TomanAgreesIff(text, rate);
  }
}
