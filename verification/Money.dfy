/** Exact decimal printing on integers (miniapp/js/money.js). `None` stands for the thrown error. */
module Money {
  import opened Options
  import opened Decimals

  // ── Digits ────────────────────────────────────────────────────────────────────────────────

  predicate IsDigit(c: char) { '0' <= c <= '9' }

  predicate AllDigits(s: string) { forall i :: 0 <= i < |s| ==> IsDigit(s[i]) }

  function Value(s: string): nat
    requires AllDigits(s)
  {
    if s == "" then 0 else 10 * Value(s[..|s| - 1]) + (s[|s| - 1] as int - '0' as int)
  }

  function Digit(v: int): (c: char)
    requires 0 <= v < 10
    ensures IsDigit(c) && c as int - '0' as int == v
  {
    '0' + v as char
  }

  /** A BigInt that is not negative, as text. */
  function ToText(n: nat): (s: string)
    ensures s != "" && AllDigits(s)
  {
    if n < 10 then [Digit(n)] else ToText(n / 10) + [Digit(n % 10)]
  }

  function Zeros(k: nat): (s: string)
    ensures |s| == k && AllDigits(s)
  {
    seq(k, _ => '0')
  }

  function PadStart(s: string, k: nat): string { if |s| >= k then s else Zeros(k - |s|) + s }

  // ── Reading ───────────────────────────────────────────────────────────────────────────────

  const MAX_WHOLE := 30
  const MAX_FRACTION := 18

  datatype Fraction = Fraction(n: int, d: nat)

  function IndexOf(s: string, c: char): (k: nat)
    ensures k <= |s| && (k < |s| ==> s[k] == c) && forall i :: 0 <= i < k ==> s[i] != c
  {
    if s == "" || s[0] == c then 0 else 1 + IndexOf(s[1..], c)
  }

  predicate DigitsUpTo(s: string, most: nat) { 1 <= |s| <= most && AllDigits(s) }

  function Signed(negative: bool, n: nat): int { if negative then -(n as int) else n }

  /** The digits over a power of ten. */
  function Parsed(negative: bool, whole: string, point: bool, fraction: string): Option<Fraction> {
    if !DigitsUpTo(whole, MAX_WHOLE) then None
    else if !point then Some(Fraction(Signed(negative, Value(whole)), 1))
    else if !DigitsUpTo(fraction, MAX_FRACTION) then None
    else Some(Fraction(Signed(negative, Value(whole + fraction)), Pow10(|fraction|)))
  }

  predicate IsNegative(text: string) { text != "" && text[0] == '-' }

  function Body(text: string): string { if IsNegative(text) then text[1..] else text }

  function Whole(text: string): string { Body(text)[..IndexOf(Body(text), '.')] }

  predicate HasPoint(text: string) { IndexOf(Body(text), '.') < |Body(text)| }

  function FractionOf(text: string): string {
    if HasPoint(text) then Body(text)[IndexOf(Body(text), '.') + 1..] else ""
  }

  /** `/^(-?)(\d{1,30})(?:\.(\d{1,18}))?$/` */
  function Decimal(text: string): Option<Fraction> {
    Parsed(IsNegative(text), Whole(text), HasPoint(text), FractionOf(text))
  }

  // ── Printing ──────────────────────────────────────────────────────────────────────────────

  /** `replace(/\B(?=(\d{3})+(?!\d))/g, ',')` on digits: a comma before every third digit from the end. */
  function GroupFrom(s: string, i: nat): string
    requires i <= |s|
    decreases |s| - i
  {
    if i == |s| then "" else Place(s, i) + GroupFrom(s, i + 1)
  }

  function Place(s: string, i: nat): string
    requires i < |s|
  {
    if 0 < i && (|s| - i) % 3 == 0 then [',', s[i]] else [s[i]]
  }

  function Group(s: string): string { GroupFrom(s, 0) }

  function RemoveCommas(s: string): string {
    if s == "" then "" else if s[0] == ',' then RemoveCommas(s[1..]) else [s[0]] + RemoveCommas(s[1..])
  }

  /** The absolute value in units of the last place. */
  function Scaled(f: Fraction, places: nat): nat
    requires f.d > 0
  {
    (Abs(f.n) * Pow10(places) * 2 + f.d) / (2 * f.d)
  }

  function WholeUnits(scaled: nat, places: nat): nat { Quotient(scaled, Pow10(places)) }

  function FractionUnits(scaled: nat, places: nat): nat { Remainder(scaled, Pow10(places)) }

  function FractionText(scaled: nat, places: nat): string {
    if places > 0 then PadStart(ToText(FractionUnits(scaled, places)), places) else ""
  }

  function Printed(negative: bool, scaled: nat, places: nat): string {
    (if negative then "-" else "") + Group(ToText(WholeUnits(scaled, places)))
    + if places > 0 then "." + FractionText(scaled, places) else ""
  }

  function Fixed(text: string, places: nat): Option<string> {
    var f := Decimal(text);
    if f.None? then None else Some(Printed(f.value.n < 0, Scaled(f.value, places), places))
  }

  function Toman(text: string, rate: nat): Option<int> {
    var f := Decimal(text);
    if f.None? then None else Some(TruncDiv(f.value.n * rate, f.value.d))
  }

  // ── Facts about digits ────────────────────────────────────────────────────────────────────

  lemma {:induction false} ValueOfConcat(a: string, b: string)
    requires AllDigits(a) && AllDigits(b)
    ensures AllDigits(a + b) && Value(a + b) == Value(a) * Pow10(|b|) + Value(b)
  {
    if b == "" {
      assert a + b == a;
    } else {
      var c := b[..|b| - 1];
      ValueOfConcat(a, c);
      assert (a + b)[..|a + b| - 1] == a + c;
      assert Value(a) * Pow10(|b|) == 10 * (Value(a) * Pow10(|c|));
    }
  }

  lemma {:induction false} ValueIsSmall(s: string)
    requires AllDigits(s)
    ensures Value(s) < Pow10(|s|)
  {
    if s != "" {
      ValueIsSmall(s[..|s| - 1]);
    }
  }

  lemma {:induction false} ToTextIs(n: nat, k: nat)
    ensures Value(ToText(n)) == n
    ensures k > 0 ==> (|ToText(n)| <= k <==> n < Pow10(k))
  {
    if n < 10 {
      assert Value([Digit(n)]) == n by { assert [Digit(n)][..0] == ""; }
      assert k > 0 ==> Pow10(k) == 10 * Pow10(k - 1);
    } else {
      var front := ToText(n / 10);
      ToTextIs(n / 10, if k > 0 then k - 1 else 0);
      assert ToText(n)[..|ToText(n)| - 1] == front;
      if k > 0 {
        assert Pow10(k) == 10 * Pow10(k - 1);
        if k == 1 {
          assert Pow10(0) == 1;
        }
      }
    }
  }

  lemma {:induction false} ZerosAreNothing(k: nat)
    ensures Value(Zeros(k)) == 0
  {
    if k > 0 {
      ZerosAreNothing(k - 1);
      assert Zeros(k)[..k - 1] == Zeros(k - 1);
    }
  }

  lemma PaddedIs(n: nat, places: nat)
    requires places > 0 && n < Pow10(places)
    ensures
      var s := PadStart(ToText(n), places);
      |s| == places && AllDigits(s) && Value(s) == n
  {
    hide Value, Zeros;
    ToTextIs(n, places);
    var k := places - |ToText(n)|;
    ZerosAreNothing(k);
    ValueOfConcat(Zeros(k), ToText(n));
  }

  lemma {:induction false} RemoveFromConcat(a: string, b: string)
    ensures RemoveCommas(a + b) == RemoveCommas(a) + RemoveCommas(b)
  {
    if a == "" {
      assert a + b == b;
    } else {
      RemoveFromConcat(a[1..], b);
      assert (a + b)[1..] == a[1..] + b;
    }
  }

  lemma {:induction false} NothingToRemove(s: string)
    requires forall i :: 0 <= i < |s| ==> s[i] != ','
    ensures RemoveCommas(s) == s
  {
    if s != "" {
      NothingToRemove(s[1..]);
    }
  }

  lemma PlaceIs(s: string, i: nat)
    requires i < |s| && AllDigits(s)
    ensures RemoveCommas(Place(s, i)) == [s[i]]
  {
    assert [s[i]][1..] == "" && [',', s[i]][1..] == [s[i]];
    assert RemoveCommas([s[i]]) == [s[i]];
  }

  lemma {:induction false} UngroupFrom(s: string, i: nat)
    requires i <= |s| && AllDigits(s)
    ensures RemoveCommas(GroupFrom(s, i)) == s[i..]
    decreases |s| - i
  {
    if i < |s| {
      hide RemoveCommas, Place;
      UngroupFrom(s, i + 1);
      PlaceIs(s, i);
      RemoveFromConcat(Place(s, i), GroupFrom(s, i + 1));
    } else {
      assert s[i..] == "";
    }
  }

  lemma GroupEnd(s: string, k: nat)
    requires k <= |s| && k <= 2
    ensures GroupFrom(s, |s| - k) == s[|s| - k..]
  {
    if k > 0 {
      GroupEnd(s, k - 1);
      assert s[|s| - k..] == [s[|s| - k]] + s[|s| - k + 1..];
    }
  }

  lemma Join(a: string, b: string, c: string)
    ensures a + (b + c) == (a + b) + c
  {
  }

  lemma GroupLastThree(s: string)
    requires |s| > 3
    ensures GroupFrom(s, |s| - 3) == "," + s[|s| - 3..]
  {
    var m := |s| - 3;
    GroupEnd(s, 2);
    assert s[m..] == [s[m]] + s[m + 1..];
    assert Place(s, m) + s[m + 1..] == "," + s[m..];
  }

  lemma SamePlace(s: string, i: nat)
    requires i + 3 < |s|
    ensures Place(s, i) == Place(s[..|s| - 3], i)
  {
  }

  lemma {:induction false} GroupTail(s: string, i: nat)
    requires |s| > 3 && i <= |s| - 3
    ensures GroupFrom(s, i) == GroupFrom(s[..|s| - 3], i) + ("," + s[|s| - 3..])
    decreases |s| - i
  {
    hide Place;
    var front, back := s[..|s| - 3], "," + s[|s| - 3..];
    if i == |s| - 3 {
      GroupLastThree(s);
      assert GroupFrom(front, i) == "";
    } else {
      GroupTail(s, i + 1);
      SamePlace(s, i);
      Join(Place(s, i), GroupFrom(front, i + 1), back);
    }
  }

  /** Grouping is a comma before the last three digits, and so on from there. */
  lemma GroupIs(s: string)
    ensures Group(s) == if |s| <= 3 then s else Group(s[..|s| - 3]) + ("," + s[|s| - 3..])
  {
    if |s| > 3 {
      GroupTail(s, 0);
    } else if |s| == 3 {
      GroupEnd(s, 2);
      assert s == [s[0]] + s[1..];
    } else {
      GroupEnd(s, |s|);
    }
  }

  // ── Printing and reading back ─────────────────────────────────────────────────────────────

  /** Nearest, ties away from zero. */
  predicate IsNearest(n: nat, d: nat, scaled: nat, scale: nat) { -(d as int) < 2 * (scaled * d - n * scale) <= d }

  lemma ScaledIsNearest(f: Fraction, places: nat)
    requires f.d > 0
    ensures IsNearest(Abs(f.n), f.d, Scaled(f, places), Pow10(places))
  {
    hide Pow10;
    var a := Abs(f.n) * Pow10(places);
    DivisionIs(a * 2 + f.d, 2 * f.d);
    var q := Scaled(f, places);
    assert q * (2 * f.d) == 2 * (q * f.d);
  }

  /** All nines before the point, and a fraction that rounds up to one. */
  predicate CarriesOver(f: Fraction, places: nat)
    requires f.d > 0
  {
    Abs(f.n) / f.d == Pow10(30) - 1 && 2 * (Abs(f.n) % f.d) * Pow10(places) + f.d >= 2 * f.d * Pow10(places)
  }

  lemma WholePart(f: Fraction, places: nat)
    requires f.d > 0
    ensures
      var r := Abs(f.n) % f.d;
      Scaled(f, places) / Pow10(places)
      == Abs(f.n) / f.d + if 2 * r * Pow10(places) + f.d >= 2 * f.d * Pow10(places) then 1 else 0
  {
    hide Pow10;
    WholePartOf(Abs(f.n), f.d, Pow10(places));
  }

  lemma WholePartOf(n: nat, d: nat, scale: nat)
    requires d > 0 && scale > 0
    ensures (n * scale * 2 + d) / (2 * d) / scale == n / d + if 2 * (n % d) * scale + d >= 2 * d * scale then 1 else 0
  {
    var w, r, a, whole := n / d, n % d, n * scale * 2 + d, 2 * d * scale;
    var rest := 2 * r * scale + d;
    DivisionIs(n, d);
    NestedDivision(a, 2 * d, scale);
    assert n * scale * 2 == w * whole + 2 * r * scale by { assert n * scale == w * d * scale + r * scale; }
    RestIsSmall(d, scale, r);
    FloorIs(a, whole, if rest >= whole then w + 1 else w) by { assert (w + 1) * whole == w * whole + whole; }
  }

  lemma RestIsSmall(d: nat, scale: nat, r: nat)
    requires d > 0 && scale > 0 && r < d
    ensures 0 <= 2 * r * scale + d < 2 * (2 * d * scale)
  {
    var p, x := d * scale, r * scale;
    Grow(r, d - 1, scale);
    Grow(1, scale, d);
    Grow(0, r, scale);
    Reassociate(d, scale, r);
  }

  lemma Reassociate(d: nat, scale: nat, r: nat)
    ensures 2 * r * scale == 2 * (r * scale) && 2 * (2 * d * scale) == 4 * (d * scale)
    ensures (d - 1) * scale == d * scale - scale && scale * d == d * scale
  {
  }

  function Plain(negative: bool, whole: string, fraction: string): string {
    (if negative then "-" else "") + whole + if fraction != "" then "." + fraction else ""
  }

  lemma PlainBody(negative: bool, whole: string, fraction: string)
    requires whole != "" && AllDigits(whole)
    ensures
      var text := Plain(negative, whole, fraction);
      IsNegative(text) == negative && Body(text) == whole + if fraction != "" then "." + fraction else ""
  {
    var rest := if fraction != "" then "." + fraction else "";
    assert IsDigit(whole[0]);
    assert Plain(negative, whole, fraction) == (if negative then "-" else "") + (whole + rest);
  }

  lemma DotAfterDigits(whole: string, rest: string)
    requires AllDigits(whole) && (rest != "" ==> rest[0] == '.')
    ensures IndexOf(whole + rest, '.') == |whole|
  {
    hide IndexOf;
    var s := whole + rest;
    assert forall i :: 0 <= i < |whole| ==> IsDigit(s[i]);
    assert rest != "" ==> s[|whole|] == '.';
  }

  lemma PlainParts(negative: bool, whole: string, fraction: string)
    requires whole != "" && AllDigits(whole)
    ensures
      var text := Plain(negative, whole, fraction);
      && IsNegative(text) == negative && Whole(text) == whole
      && HasPoint(text) == (fraction != "") && FractionOf(text) == fraction
  {
    hide IndexOf, Body, IsNegative, Plain, AllDigits;
    var rest := if fraction != "" then "." + fraction else "";
    PlainBody(negative, whole, fraction);
    DotAfterDigits(whole, rest);
    assert (whole + rest)[..|whole|] == whole;
    if fraction != "" {
      assert (whole + rest)[|whole| + 1..] == fraction;
    }
  }

  lemma ReadPlain(negative: bool, whole: string, fraction: string)
    requires whole != "" && AllDigits(whole) && AllDigits(fraction)
    ensures Decimal(Plain(negative, whole, fraction)) ==
            if |whole| <= 30 && |fraction| <= 18
            then Some(Fraction(Signed(negative, Value(whole + fraction)), Pow10(|fraction|))) else None
  {
    PlainParts(negative, whole, fraction);
    assert whole + "" == whole && Pow10(0) == 1;
    hide Value, Pow10, Plain, Whole, HasPoint, FractionOf, IsNegative;
  }

  lemma Ungrouped(negative: bool, scaled: nat, places: nat)
    ensures RemoveCommas(Printed(negative, scaled, places))
            == Plain(negative, ToText(WholeUnits(scaled, places)), FractionText(scaled, places))
  {
    hide WholeUnits, FractionText, ToText;
    var whole, fraction := ToText(WholeUnits(scaled, places)), FractionText(scaled, places);
    var sign, tail := if negative then "-" else "", if places > 0 then "." + fraction else "";
    FractionIs(scaled, places);
    RemoveFromConcat(sign + Group(whole), tail);
    RemoveFromConcat(sign, Group(whole));
    UngroupFrom(whole, 0);
    NothingToRemove(sign);
    NothingToRemove(tail);
  }

  lemma FractionIs(scaled: nat, places: nat)
    ensures
      var s := FractionText(scaled, places);
      |s| == places && AllDigits(s) && Value(s) == FractionUnits(scaled, places)
  {
    assert Value("") == 0;
    hide Value, ToText, PadStart;
    if places > 0 {
      DivisionIs(scaled, Pow10(places));
      PaddedIs(FractionUnits(scaled, places), places);
    } else {
      assert Pow10(0) == 1;
    }
  }

  lemma PrintedReadsBack(negative: bool, scaled: nat, places: nat)
    ensures Decimal(RemoveCommas(Printed(negative, scaled, places))) ==
            if WholeUnits(scaled, places) < Pow10(30) && places <= 18
            then Some(Fraction(Signed(negative, scaled), Pow10(places))) else None
  {
    hide Pow10, Value, ToText, Decimal, Plain, Printed, RemoveCommas, FractionText;
    var whole, fraction := ToText(WholeUnits(scaled, places)), FractionText(scaled, places);
    Ungrouped(negative, scaled, places);
    FractionIs(scaled, places);
    ToTextIs(WholeUnits(scaled, places), 30);
    ReadPlain(negative, whole, fraction);
    ValueOfConcat(whole, fraction);
    DivisionIs(scaled, Pow10(places));
  }

  lemma DecimalIs(text: string)
    requires Decimal(text).Some?
    ensures
      var whole, fraction, f := Whole(text), FractionOf(text), Decimal(text).value;
      && DigitsUpTo(whole, 30) && AllDigits(fraction) && |fraction| <= 18
      && f == Fraction(Signed(IsNegative(text), Value(whole + fraction)), Pow10(|fraction|))
      && Abs(f.n) == Value(whole) * f.d + Value(fraction) && Value(fraction) < f.d && Value(whole) < Pow10(30)
  {
    var whole, fraction := Whole(text), FractionOf(text);
    assert whole + "" == whole && Pow10(0) == 1;
    hide Whole, FractionOf, IsNegative, Value, Pow10;
    ValueIsSmall(whole);
    ValueIsSmall(fraction);
    ValueOfConcat(whole, fraction);
    Grows(|whole|, 30);
  }

  lemma DecimalIsShort(text: string)
    requires Decimal(text).Some?
    ensures
      var f := Decimal(text).value;
      f.d > 0 && Abs(f.n) / f.d < Pow10(30)
  {
    DecimalIs(text);
    hide Decimal, Value, Pow10;
    var f := Decimal(text).value;
    FloorIs(Abs(f.n), f.d, Value(Whole(text)));
  }

  predicate ReadsBackAs(f: Fraction, back: Fraction, places: nat) {
    && back.d == Pow10(places) && (if f.n < 0 then back.n <= 0 else back.n >= 0)
    && IsNearest(Abs(f.n), f.d, Abs(back.n), back.d)
  }

  function Again(printed: Option<string>): Option<Fraction> {
    if printed.None? then None else Decimal(RemoveCommas(printed.value))
  }

  lemma AgainIs(text: string, places: nat)
    requires Decimal(text).Some?
    ensures
      var f := Decimal(text).value;
      && f.d > 0 && Abs(f.n) / f.d < Pow10(30)
      && Again(Fixed(text, places)) ==
         if WholeUnits(Scaled(f, places), places) < Pow10(30) && places <= 18
         then Some(Fraction(Signed(f.n < 0, Scaled(f, places)), Pow10(places))) else None
  {
    hide Decimal, Printed, Pow10, Scaled, RemoveCommas;
    DecimalIsShort(text);
    var f := Decimal(text).value;
    PrintedReadsBack(f.n < 0, Scaled(f, places), places);
  }

  /** What is printed, read again without its commas, is the value nearest to what was read, ties away
      from zero, and that exactly in units of the last place. It reads back for every value but those
      that round up to a one with thirty zeros, and up to eighteen places. */
  lemma FixedReadsBack(text: string, places: nat)
    requires Decimal(text).Some?
    ensures
      var f, back := Decimal(text).value, Again(Fixed(text, places));
      && f.d > 0
      && (back.Some? <==> places <= 18 && !CarriesOver(f, places))
      && (back.Some? ==> ReadsBackAs(f, back.value, places))
  {
    hide Decimal, Fixed, Again, Pow10, Scaled;
    var f := Decimal(text).value;
    AgainIs(text, places);
    ScaledIsNearest(f, places);
    WholePart(f, places);
  }

  lemma ExactWhenDivisible(n: nat, d: nat, t: nat, m: nat)
    requires d > 0 && t > 0 && IsNearest(n, d, m, d * t)
    ensures m == n * t && 2 * (n % d) * (d * t) + d < 2 * d * (d * t)
  {
    var diff := m - n * t;
    assert n * (d * t) == n * t * d;
    assert m * d - n * t * d == diff * d;
    Multiples(diff, d);
    assert diff == 0;
    RoundsDown(n % d, d, d * t) by { Grow(1, t, d); }
  }

  lemma RoundsDown(r: nat, d: nat, scale: nat)
    requires r < d <= scale
    ensures 2 * r * scale + d < 2 * d * scale
  {
    var p, x := d * scale, r * scale;
    Grow(r, d - 1, scale);
    assert (d - 1) * scale == p - scale;
    assert 2 * r * scale == 2 * x && 2 * d * scale == 2 * p;
  }

  /** With no more decimals than are printed, nothing is rounded. */
  lemma ShortIsUnchanged(text: string, places: nat)
    requires Decimal(text).Some? && |FractionOf(text)| <= places <= 18
    ensures
      var f, back := Decimal(text).value, Again(Fixed(text, places));
      back.Some? && back.value.n * f.d == f.n * back.value.d
  {
    hide Decimal, Fixed, Again, Pow10, Scaled, FractionOf, IsNearest;
    var f := Decimal(text).value;
    DecimalIs(text);
    var t := Pow10(places - |FractionOf(text)|);
    PowersMultiply(|FractionOf(text)|, places - |FractionOf(text)|);
    ScaledIsNearest(f, places);
    ExactWhenDivisible(Abs(f.n), f.d, t, Scaled(f, places));
    AgainIs(text, places);
    WholePart(f, places);
    SameFraction(f.n, f.d, t, Scaled(f, places));
  }

  lemma SameFraction(n: int, d: nat, t: nat, m: nat)
    requires m == Abs(n) * t
    ensures Signed(n < 0, m) * d == n * (d * t)
  {
    assert Signed(n < 0, m) == n * t;
  }

  function Nines(k: nat): (s: string)
    ensures |s| == k && AllDigits(s)
  {
    seq(k, _ => '9')
  }

  lemma {:induction false} NinesAre(k: nat)
    ensures Value(Nines(k)) == Pow10(k) - 1
  {
    if k > 0 {
      NinesAre(k - 1);
      assert Nines(k)[..k - 1] == Nines(k - 1);
    }
  }

  lemma FiveIs()
    ensures Value("5") == 5
  {
    assert "5"[..0] == "";
  }

  lemma NinesAndAHalfIs()
    ensures Decimal(Nines(30) + ".5") == Some(Fraction(10 * (Pow10(30) - 1) + 5, 10))
  {
    hide Pow10, Value, Decimal;
    SmallPowers();
    FiveIs();
    assert Plain(false, Nines(30), "5") == Nines(30) + ".5" by {
      assert "" + Nines(30) + ("." + "5") == Nines(30) + ".5";
    }
    hide Plain;
    ReadPlain(false, Nines(30), "5");
    NinesAre(30);
    ValueOfConcat(Nines(30), "5");
  }

  /** The largest number that can be read, and a half, is printed with 31 digits, which cannot be read. */
  lemma ThirtyNinesAndAHalf()
    ensures Decimal(Nines(30) + ".5").Some? && Again(Fixed(Nines(30) + ".5", 0)).None?
  {
    hide Pow10, Decimal, Fixed, Again, CarriesOver, ReadsBackAs, Nines;
    NinesAndAHalfIs();
    NinesCarry(Pow10(30));
    FixedReadsBack(Nines(30) + ".5", 0);
  }

  lemma NinesCarry(p: nat)
    requires p == Pow10(30)
    ensures CarriesOver(Fraction(10 * (p - 1) + 5, 10), 0)
  {
    assert Pow10(0) == 1;
    hide Pow10;
  }
}
