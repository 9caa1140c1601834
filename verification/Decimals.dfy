/** Exact rounding on integers, as Python's `decimal` and JavaScript's BigInt do it. */
module Decimals {
  function Pow10(k: nat): (r: nat)
    ensures r >= 1
  {
    if k == 0 then 1 else 10 * Pow10(k - 1)
  }

  lemma SmallPowers()
    ensures Pow10(0) == 1 && Pow10(1) == 10
  {
  }

  function Abs(a: int): nat { if a < 0 then -a else a }

  /** Toward zero. */
  function TruncDiv(a: int, b: int): int
    requires b > 0
  {
    if a < 0 then -(-a / b) else a / b
  }

  function Quotient(a: nat, b: nat): nat
    requires b > 0
  {
    a / b
  }

  function Remainder(a: nat, b: nat): nat
    requires b > 0
  {
    a % b
  }

  /** To the nearest integer, halves to the even one. */
  function HalfEvenDiv(a: int, b: int): int
    requires b > 0
  {
    if 2 * (a % b) < b || (2 * (a % b) == b && a / b % 2 == 0) then a / b else a / b + 1
  }

  /** `q` is the integer nearest to `a / b`, or the even one of the two nearest. */
  predicate IsHalfEven(a: int, b: int, q: int) {
    -b < 2 * (q * b - a) < b || ((2 * (q * b - a) == b || 2 * (q * b - a) == -b) && q % 2 == 0)
  }

  lemma HalfEvenIsNearest(a: int, b: int)
    requires b > 0
    ensures IsHalfEven(a, b, HalfEvenDiv(a, b))
  {
    var q, r := a / b, a % b;
    assert a == q * b + r;
    assert (q + 1) * b == q * b + b;
  }

  lemma Multiples(d: int, b: int)
    requires b > 0
    ensures d >= 2 ==> d * b >= 2 * b
    ensures d <= -2 ==> d * b <= -2 * b
    ensures d == 1 ==> d * b == b
    ensures d == -1 ==> d * b == -b
  {
  }

  lemma MultiplesApart(h: int, q: int, b: int, d: int)
    requires b > 0 && d == h * b - q * b
    ensures h - q >= 2 ==> d >= 2 * b
    ensures h - q <= -2 ==> d <= -2 * b
    ensures h - q == 1 ==> d == b
    ensures h - q == -1 ==> d == -b
  {
    assert d == (h - q) * b;
    Multiples(h - q, b);
  }

  lemma HalfEvenIs(a: int, b: int, q: int)
    requires b > 0 && IsHalfEven(a, b, q)
    ensures HalfEvenDiv(a, b) == q
  {
    HalfEvenIsNearest(a, b);
    var h := HalfEvenDiv(a, b);
    hide HalfEvenDiv;
    var x, y := h * b, q * b;
    MultiplesApart(h, q, b, x - y);
    NearestIsUnique(a, b, x, y, x - y, h, q);
  }

  lemma NearestIsUnique(a: int, b: int, x: int, y: int, d: int, h: int, q: int)
    requires b > 0 && d == x - y
    requires h - q >= 2 ==> d >= 2 * b
    requires h - q <= -2 ==> d <= -2 * b
    requires h - q == 1 ==> d == b
    requires h - q == -1 ==> d == -b
    requires -b < 2 * (y - a) < b || ((2 * (y - a) == b || 2 * (y - a) == -b) && q % 2 == 0)
    requires -b < 2 * (x - a) < b || ((2 * (x - a) == b || 2 * (x - a) == -b) && h % 2 == 0)
    ensures h == q
  {
  }

  lemma HalfEvenOdd(a: int, b: int)
    requires b > 0
    ensures HalfEvenDiv(-a, b) == -HalfEvenDiv(a, b)
  {
    var q := HalfEvenDiv(a, b);
    HalfEvenIsNearest(a, b);
    assert -q * b == -(q * b);
    HalfEvenIs(-a, b, -q);
  }

  /** The same rounding of a real number. */
  function HalfEven(x: real): int {
    var below := x.Floor;
    var rest := x - below as real;
    if rest < 0.5 || (rest == 0.5 && below % 2 == 0) then below else below + 1
  }

  lemma HalfEvenIsClose(x: real)
    ensures -0.5 <= HalfEven(x) as real - x <= 0.5
    ensures x == x.Floor as real ==> HalfEven(x) == x.Floor
  {
  }

  lemma HalfEvenOfQuotient(a: int, b: int)
    requires b > 0
    ensures HalfEven(a as real / b as real) == HalfEvenDiv(a, b)
  {
    var q, r := a / b, a % b;
    assert a == q * b + r;
    var x, rest := a as real / b as real, r as real / b as real;
    assert x * b as real == (q as real + rest) * b as real;
    HalfOf(rest, b as real, r as real);
    assert x == q as real + rest;
    assert x.Floor == q;
  }

  lemma HalfOf(rest: real, b: real, r: real)
    requires b > 0.0 && rest == r / b && 0.0 <= r < b
    ensures 0.0 <= rest < 1.0 && (rest < 0.5 <==> 2.0 * r < b) && (rest == 0.5 <==> 2.0 * r == b)
  {
    assert r == rest * b;
    Sign(rest, b);
    Sign(1.0 - rest, b);
    Sign(0.5 - rest, b);
    assert (1.0 - rest) * b == b - r && (0.5 - rest) * b == 0.5 * b - r;
  }

  lemma Sign(x: real, b: real)
    requires b > 0.0
    ensures (x * b > 0.0 <==> x > 0.0) && (x * b == 0.0 <==> x == 0.0)
  {
  }

  const PRECISION: nat := 28

  /** Few enough digits for the context to keep them all. */
  predicate Fits(c: int) { Abs(c) < Pow10(PRECISION) }

  /** The power of ten below which a product of this size loses its digits. */
  function Lost(c: nat): (p: nat)
    ensures p >= 1
  {
    if Fits(c) then 1 else 10 * Lost(c / 10)
  }

  /** A coefficient as the default decimal context keeps it: 28 digits. */
  function Kept(c: int): int { HalfEvenDiv(c, Lost(Abs(c))) * Lost(Abs(c)) }

  // ── Division and powers ──────────────────────────────────────────────────────────────────

  lemma DivisionIs(a: nat, b: nat)
    requires b > 0
    ensures a == a / b * b + a % b && 0 <= a % b < b
  {
  }

  lemma FloorIs(a: nat, b: nat, q: int)
    requires b > 0 && q * b <= a < q * b + b
    ensures a / b == q
  {
    DivisionIs(a, b);
    var h := a / b;
    assert (h - q) * b == h * b - q * b;
    Multiples(h - q, b);
  }

  lemma {:induction false} Grow(a: int, b: int, c: nat)
    requires a <= b
    ensures a * c <= b * c
  {
    if c > 0 {
      Grow(a, b, c - 1);
      assert a * c == a * (c - 1) + a && b * c == b * (c - 1) + b;
    }
  }

  lemma RestOfRest(b: nat, c: nat, x: nat, y: nat)
    requires x < c && y < b
    ensures x * b + y < b * c
  {
    Grow(x, c - 1, b);
    assert (c - 1) * b == b * c - b;
  }

  lemma Regroup(q: nat, b: nat, c: nat, x: nat, y: nat)
    ensures (q * c + x) * b + y == q * (b * c) + (x * b + y)
  {
  }

  lemma NestedDivision(a: nat, b: nat, c: nat)
    requires b > 0 && c > 0
    ensures b * c > 0 && a / b / c == a / (b * c)
  {
    var x, y := a / b, a % b;
    var q, rest := x / c, x % c;
    DivisionIs(a, b);
    DivisionIs(x, c);
    RestOfRest(b, c, rest, y);
    Regroup(q, b, c, rest, y);
    FloorIs(a, b * c, q);
  }

  lemma {:induction false} Grows(j: nat, k: nat)
    requires j <= k
    ensures Pow10(j) <= Pow10(k)
  {
    if j < k {
      Grows(j, k - 1);
    }
  }

  lemma {:induction false} PowersMultiply(j: nat, k: nat)
    ensures Pow10(j + k) == Pow10(j) * Pow10(k)
  {
    if j > 0 {
      PowersMultiply(j - 1, k);
    }
  }
}
