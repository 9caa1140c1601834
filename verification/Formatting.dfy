/** Dollars and Toman (core/formatting.py). A dollar amount is `n / 10^k`; a converted one is in cents. */
module Formatting {
  import opened Decimals

  /** `int(Decimal * rate)`: the product keeps 28 digits, `int` truncates. */
  function UsdToToman(n: int, k: nat, rate: int): int { TruncDiv(Kept(n * rate), Pow10(k)) }

  /** Cents; the quotient is taken exactly, see `TwoRoundingsAreOne`. */
  function TomanToUsd(toman: int, rate: int): int { if rate <= 0 then 0 else HalfEvenDiv(100 * toman, rate) }

  lemma KeptWithin(c: int)
    requires Fits(c)
    ensures Kept(c) == c
  {
    HalfEvenIs(c, 1, c);
  }

  lemma DivideBack(m: int, rate: int, cents: int, toman: int)
    requires rate > 0 && 100 * toman == cents * rate - m && 0 <= m < 100
    ensures HalfEvenDiv(100 * toman, rate) == cents <==> 2 * m < rate || (2 * m == rate && cents % 2 == 0)
  {
    if 2 * m < rate || (2 * m == rate && cents % 2 == 0) {
      HalfEvenIs(100 * toman, rate, cents);
    } else {
      HalfEvenIsNearest(100 * toman, rate);
    }
  }

  /** Dollars to Toman and back, exactly when the part of a Toman that is cut off is worth less than
      half a cent, or just that with an even number of cents. */
  lemma RoundTripIff(cents: nat, rate: nat)
    requires rate > 0 && Fits(cents * rate)
    ensures TomanToUsd(UsdToToman(cents, 2, rate), rate) == cents
            <==> 2 * (cents * rate % 100) < rate || (2 * (cents * rate % 100) == rate && cents % 2 == 0)
  {
    hide HalfEvenDiv, Kept;
    assert Pow10(2) == 100;
    hide Pow10;
    var c := cents * rate;
    KeptWithin(c);
    DivideBack(c % 100, rate, cents, c / 100);
  }

  lemma OddInCents(c: nat, rate: nat)
    requires rate > 0 && Fits(c)
    ensures Kept(c) == c && Kept(-(c as int)) == -(c as int)
    ensures HalfEvenDiv(-(100 * (c / 100)), rate) == -HalfEvenDiv(100 * (c / 100), rate)
  {
    hide HalfEvenDiv, Kept, Pow10;
    KeptWithin(c);
    KeptWithin(-(c as int));
    HalfEvenOdd(100 * (c / 100), rate);
  }

  lemma RoundTripOfDebt(cents: nat, rate: nat)
    requires rate > 0 && Fits(cents * rate)
    ensures TomanToUsd(UsdToToman(-(cents as int), 2, rate), rate) == -TomanToUsd(UsdToToman(cents, 2, rate), rate)
  {
    hide HalfEvenDiv, Kept;
    assert Pow10(2) == 100;
    hide Pow10;
    var c := cents * rate;
    assert -(cents as int) * rate == -c;
    OddInCents(c, rate);
  }

  /** At every rate of at least 200 Toman to the dollar nothing is lost, on debts either. */
  lemma RoundTrip(cents: int, rate: int)
    requires rate >= 200 && Fits(cents * rate)
    ensures TomanToUsd(UsdToToman(cents, 2, rate), rate) == cents
  {
    hide HalfEvenDiv, Kept, UsdToToman, TomanToUsd;
    var size := Abs(cents);
    assert Abs(cents * rate) == size * rate;
    RoundTripIff(size, rate) by { hide Pow10; }
    RoundTripOfDebt(size, rate) by { hide Pow10; }
  }

  /** `rate / 200` is half a cent's worth of Toman. */
  predicate OffByHalfACent(toman: int, back: int, rate: int) { -rate - 200 < 200 * (back - toman) <= rate }

  /** Toman to dollars and back is off by no more than half a cent's worth and one Toman. */
  lemma OtherWayIsClose(toman: nat, rate: nat)
    requires rate > 0 && Fits(100 * toman + rate)
    ensures OffByHalfACent(toman, UsdToToman(TomanToUsd(toman, rate), 2, rate), rate)
  {
    hide HalfEvenDiv, Kept;
    assert Pow10(2) == 100;
    hide Pow10;
    var cents := TomanToUsd(toman, rate);
    HalfEvenIsNearest(100 * toman, rate);
    var c := cents * rate;
    assert c >= 0 by {
      Multiples(cents, rate);
    }
    KeptWithin(c);
  }

  /** Python first rounds the quotient to a multiple of `1 / s`, then to cents. With `s` a multiple of
      200 and above a hundred times the rate, that gives the same cents as rounding once. */
  lemma QuotientDigitsAreHarmless(toman: int, rate: int, s: int)
    requires rate > 0 && s % 200 == 0 && s > 100 * rate
    ensures HalfEvenDiv(100 * HalfEvenDiv(toman * s, rate), s) == TomanToUsd(toman, rate)
  {
    hide HalfEvenDiv, IsHalfEven;
    var y, q := HalfEvenDiv(toman * s, rate), TomanToUsd(toman, rate);
    HalfEvenIsNearest(toman * s, rate);
    HalfEvenIsNearest(100 * toman, rate);
    RoundedTwice(toman, rate, s, y, q);
    HalfEvenIs(100 * y, s, q);
  }

  lemma ScaleGrows(n: nat, s: nat)
    requires n > 0 && s > 0
    ensures n * (10 * s) > n * s
  {
    Grow(1, s, n);
    assert n * (10 * s) == 10 * (n * s) && s * n == n * s;
  }

  /** The first power of ten, from `s` on, with which `n` reaches `goal`. */
  function ScaleReaching(n: nat, goal: nat, s: nat): (r: nat)
    requires n > 0 && s > 0
    ensures r > 0 && n * r >= goal
    decreases goal - n * s
  {
    ScaleGrows(n, s);
    if n * s >= goal then s else ScaleReaching(n, goal, 10 * s)
  }

  /** The power of ten with which the quotient `n / d` has its first 28 digits. */
  function QuotientScale(n: nat, d: nat): nat
    requires n > 0
  {
    ScaleReaching(n, Pow10(PRECISION - 1) * d, 1)
  }

  /** As Python computes it: the quotient to 28 digits, then to cents. */
  function RoundedTwiceToUsd(toman: int, rate: int): int {
    if rate <= 0 || toman == 0 then 0
    else
      var s := QuotientScale(Abs(toman), rate);
      HalfEvenDiv(100 * HalfEvenDiv(toman * s, rate), s)
  }

  lemma {:induction false} ScaleIsPower(n: nat, goal: nat, s: nat, k: nat)
    requires n > 0 && s == Pow10(k)
    ensures exists j: nat :: ScaleReaching(n, goal, s) == Pow10(j)
    decreases goal - n * s
  {
    ScaleGrows(n, s);
    if n * s < goal {
      ScaleIsPower(n, goal, 10 * s, k + 1);
    }
  }

  lemma QuotientScaleIs(n: nat, d: nat) returns (j: nat)
    requires 0 < n < Pow10(25) && d > 0
    ensures QuotientScale(n, d) == Pow10(j) > 100 * d
  {
    hide ScaleReaching;
    assert Pow10(0) == 1;
    var goal := Pow10(PRECISION - 1) * d;
    hide Pow10;
    ScaleIsPower(n, goal, 1, 0);
    j :| QuotientScale(n, d) == Pow10(j);
    ScaleIsLarge(n, d, QuotientScale(n, d));
  }

  /** Below 10^25 Toman, at every rate, the digits the quotient loses change no cent. */
  lemma TwoRoundingsAreOne(toman: int, rate: int)
    requires Abs(toman) < Pow10(25)
    ensures RoundedTwiceToUsd(toman, rate) == TomanToUsd(toman, rate)
  {
    hide HalfEvenDiv, QuotientScale;
    if rate > 0 {
      if toman == 0 {
        HalfEvenIs(0, rate, 0);
      } else {
        var j := QuotientScaleIs(Abs(toman), rate);
        PowerOfTenIsEven(j);
        QuotientDigitsAreHarmless(toman, rate, Pow10(j));
      }
    }
  }

  lemma SmallScale(n: nat, d: nat, s: nat, p: nat)
    requires n < p && d > 0 && s <= 100 * d
    ensures n * s < 100 * p * d
  {
    Grow(s, 100 * d, n);
    Grow(n, p - 1, 100 * d);
    assert n * s == s * n && 100 * d * n == n * (100 * d);
    assert (p - 1) * (100 * d) == 100 * p * d - 100 * d;
  }

  lemma ScaleIsLarge(n: nat, d: nat, s: nat)
    requires 0 < n < Pow10(25) && d > 0 && n * s >= Pow10(PRECISION - 1) * d
    ensures s > 100 * d
  {
    assert Pow10(PRECISION - 1) == 100 * Pow10(25);
    hide Pow10;
    if s <= 100 * d {
      SmallScale(n, d, s, Pow10(25));
    }
  }

  lemma PowerOfTenIsEven(j: nat)
    requires Pow10(j) > 100
    ensures Pow10(j) % 200 == 0
  {
    assert Pow10(0) == 1 && Pow10(1) == 10 && Pow10(2) == 100 && Pow10(3) == 1000;
    if j >= 3 {
      PowersMultiply(3, j - 3);
    }
  }

  lemma Errors(toman: int, rate: int, s: int, y: int, q: int)
    ensures 2 * (q * s - 100 * y) * rate == s * (2 * (q * rate - 100 * toman)) + 200 * (toman * s - y * rate)
  {
  }

  /** A quotient that is no tie is far enough from one. */
  lemma RoundedTwiceInside(toman: int, rate: int, s: int, y: int, q: int)
    requires rate > 0 && s > 100 * rate && IsHalfEven(toman * s, rate, y) && -rate < 2 * (q * rate - 100 * toman) < rate
    ensures -s < 2 * (q * s - 100 * y) < s
  {
    Errors(toman, rate, s, y, q);
    Within(s, rate, 2 * (q * rate - 100 * toman));
    InsideBoth(s, rate, 2 * (q * s - 100 * y), s * (2 * (q * rate - 100 * toman)), 200 * (toman * s - y * rate));
  }

  /** `side` is 1 for a tie that went up, -1 for one that went down. */
  lemma RoundedTwiceTie(toman: int, rate: int, s: int, y: int, q: int, side: int)
    requires rate > 0 && s > 0 && s % 200 == 0 && IsHalfEven(toman * s, rate, y)
    requires 200 * toman == (2 * q - side) * rate
    ensures 2 * (q * s - 100 * y) == side * s
  {
    TieIsExact(toman, rate, s, y, 2 * q - side);
    assert (2 * q - side) * s == 2 * (q * s) - side * s;
  }

  lemma RoundedTwice(toman: int, rate: int, s: int, y: int, q: int)
    requires rate > 0 && s % 200 == 0 && s > 100 * rate
    requires IsHalfEven(toman * s, rate, y) && IsHalfEven(100 * toman, rate, q)
    ensures IsHalfEven(100 * y, s, q)
  {
    var a := 2 * (q * rate - 100 * toman);
    if a == rate {
      assert 200 * toman == (2 * q - 1) * rate;
      RoundedTwiceTie(toman, rate, s, y, q, 1);
    } else if a == -rate {
      assert 200 * toman == (2 * q - (-1)) * rate;
      RoundedTwiceTie(toman, rate, s, y, q, -1);
    } else {
      RoundedTwiceInside(toman, rate, s, y, q);
    }
  }

  lemma Within(s: int, rate: int, x: int)
    requires s > 0 && -rate < x < rate
    ensures -(s * rate) + s <= s * x <= s * rate - s
  {
    assert s * (rate - 1) >= s * x >= s * (1 - rate);
  }

  lemma InsideBoth(s: int, rate: int, z: int, x: int, y: int)
    requires rate > 0 && s > 100 * rate && z * rate == x + y
    requires -(s * rate) + s <= x <= s * rate - s && -100 * rate <= y <= 100 * rate
    ensures -s < z < s
  {
    assert -(s * rate) < z * rate < s * rate;
    assert z >= s ==> z * rate >= s * rate;
    assert z <= -s ==> z * rate <= -s * rate;
  }

  /** A quotient half-way between two cents has three decimals. */
  lemma TieIsExact(toman: int, rate: int, s: int, y: int, odd: int)
    requires rate > 0 && s > 0 && s % 200 == 0 && 200 * toman == odd * rate && IsHalfEven(toman * s, rate, y)
    ensures 200 * y == odd * s
  {
    var k := s / 200;
    assert s == 200 * k;
    assert toman * s == odd * k * rate by {
      assert toman * s == 200 * toman * k;
    }
    HalfEvenIs(toman * s, rate, y);
    HalfEvenIs(toman * s, rate, odd * k);
  }
}
