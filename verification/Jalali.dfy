/** Gregorian to Jalali dates (core/jalali.py), for every integer year. Python's `//` and `%` by a
    positive number are Dafny's `/` and `%`. */
module Jalali {

  datatype Date = Date(y: int, m: int, d: int)

  // ── The two calendars, independently of the conversion ────────────────────────────────────

  predicate GregorianLeap(y: int) { (y % 4 == 0 && y % 100 != 0) || y % 400 == 0 }

  function GregorianMonth(y: int, m: int): int
    requires 1 <= m <= 12
  {
    if m == 2 then (if GregorianLeap(y) then 29 else 28)
    else if m == 4 || m == 6 || m == 9 || m == 11 then 30 else 31
  }

  predicate ValidGregorian(g: Date) { 1 <= g.m <= 12 && 1 <= g.d <= GregorianMonth(g.y, g.m) }

  function NextGregorian(g: Date): (r: Date)
    requires ValidGregorian(g)
    ensures ValidGregorian(r)
  {
    if g.d < GregorianMonth(g.y, g.m) then g.(d := g.d + 1)
    else if g.m < 12 then Date(g.y, g.m + 1, 1)
    else Date(g.y + 1, 1, 1)
  }

  /** The 33-year rule: eight leap years, every fourth from 979 on, and the 33rd is common. */
  predicate JalaliLeap(y: int) {
    var k := (y - 979) % 33;
    k % 4 == 0 && k != 32
  }

  function JalaliMonth(y: int, m: int): int
    requires 1 <= m <= 12
  {
    if m <= 6 then 31 else if m <= 11 then 30 else if JalaliLeap(y) then 30 else 29
  }

  predicate ValidJalali(j: Date) { 1 <= j.m <= 12 && 1 <= j.d <= JalaliMonth(j.y, j.m) }

  function NextJalali(j: Date): (r: Date)
    requires ValidJalali(j)
    ensures ValidJalali(r)
  {
    if j.d < JalaliMonth(j.y, j.m) then j.(d := j.d + 1)
    else if j.m < 12 then Date(j.y, j.m + 1, 1)
    else Date(j.y + 1, 1, 1)
  }

  /** The order of dates, the same in both calendars. */
  predicate Before(a: Date, b: Date) {
    a.y < b.y || (a.y == b.y && (a.m < b.m || (a.m == b.m && a.d < b.d)))
  }

  // ── Day numbers ───────────────────────────────────────────────────────────────────────────

  function GregorianYearStart(y: int): int {
    var k := y - 1600;
    365 * k + (k + 3) / 4 - (k + 99) / 100 + (k + 399) / 400
  }

  /** Days before month `m` of the year, summed month by month. */
  function GregorianDaysBefore(y: int, m: int): int
    requires 1 <= m <= 13
  {
    if m == 1 then 0 else GregorianDaysBefore(y, m - 1) + GregorianMonth(y, m - 1)
  }

  /** Days since 1 January 1600. */
  function GregorianDay(g: Date): int
    requires ValidGregorian(g)
  {
    GregorianYearStart(g.y) + GregorianDaysBefore(g.y, g.m) + g.d - 1
  }

  /** Days since 1 Farvardin 979, which is 20 March 1600, up to the first day of the year. */
  function JalaliYearStart(y: int): int {
    var k := y - 979;
    var r := k % 33;
    12053 * (k / 33) + 1461 * (r / 4) + (if r % 4 == 0 then 0 else 365 * (r % 4) + 1)
  }

  function JalaliDaysBefore(m: int): int { if m <= 7 then 31 * (m - 1) else 186 + 30 * (m - 7) }

  function JalaliDay(j: Date): int { JalaliYearStart(j.y) + JalaliDaysBefore(j.m) + j.d - 1 }

  /** The tail of the conversion: from a day number to the Jalali date. */
  function JalaliOfDay(n: int): Date {
    var r := n % 12053;
    var q := r % 1461;
    var y := 979 + 33 * (n / 12053) + 4 * (r / 1461) + (if q >= 366 then (q - 1) / 365 else 0);
    var doy := if q >= 366 then (q - 1) % 365 else q;
    if doy < 186 then Date(y, doy / 31 + 1, doy % 31 + 1)
    else Date(y, (doy - 186) / 30 + 7, (doy - 186) % 30 + 1)
  }

  function Convert(g: Date): Date
    requires ValidGregorian(g)
  {
    JalaliOfDay(GregorianDay(g) - 79)
  }

  // ── The method ────────────────────────────────────────────────────────────────────────────

  const G_D_M: seq<int> := [0, 31, 59, 90, 120, 151, 181, 212, 243, 273, 304, 334]
  const J_D_M: seq<int> := [31, 31, 31, 31, 31, 31, 30, 30, 30, 30, 30, 29]

  lemma {:induction false} DaysBeforeTable(y: int, m: int)
    requires 1 <= m <= 12
    ensures GregorianDaysBefore(y, m) == G_D_M[m - 1] + (if m > 2 && GregorianLeap(y) then 1 else 0)
  {
    if m > 1 { DaysBeforeTable(y, m - 1); }
  }

  /** Lines 31-46 of the source: the Gregorian day number, month by month. */
  method GregorianDayNo(gy: int, gm: int, gd: int) returns (gDayNo: int)
    requires ValidGregorian(Date(gy, gm, gd))
    ensures gDayNo == GregorianDay(Date(gy, gm, gd))
  {
    var gy2, gm2, gd2 := gy - 1600, gm - 1, gd - 1;
    gDayNo := 365 * gy2 + (gy2 + 3) / 4 - (gy2 + 99) / 100 + (gy2 + 399) / 400;
    for i := 0 to gm2
      invariant gDayNo == GregorianYearStart(gy) + G_D_M[i]
    {
      gDayNo := gDayNo + (if i + 1 < |G_D_M| then G_D_M[i + 1] - G_D_M[i] else 31);
    }
    if gm2 > 1 && ((gy % 4 == 0 && gy % 100 != 0) || gy % 400 == 0) {
      gDayNo := gDayNo + 1;
    }
    gDayNo := gDayNo + gd2;
    DaysBeforeTable(gy, gm);
  }

  /** Lines 57-64: the month loop. */
  method MonthAndDay(doy: int) returns (jm: int, jd: int)
    requires 0 <= doy <= 365
    ensures (jm, jd) == if doy < 186 then (doy / 31 + 1, doy % 31 + 1) else ((doy - 186) / 30 + 7, (doy - 186) % 30 + 1)
  {
    var jDayNo, month := doy, 0;
    while month < 11
      invariant 0 <= month <= 11
      invariant 0 <= jDayNo && jDayNo + JalaliDaysBefore(month + 1) == doy
    {
      if jDayNo < J_D_M[month] {
        break;
      }
      jDayNo := jDayNo - J_D_M[month];
      month := month + 1;
    }
    MonthOfDay(doy, month, jDayNo);
    jd := jDayNo + 1;
    jm := month + 1;
  }

  /** Lines 49-65: years by cycles of 33 and of 4, then the month. */
  method JalaliOfDayNo(n: int) returns (jy: int, jm: int, jd: int)
    ensures Date(jy, jm, jd) == JalaliOfDay(n)
  {
    var jDayNo := n;
    var jNp := jDayNo / 12053;
    jDayNo := jDayNo % 12053;
    jy := 979 + 33 * jNp + 4 * (jDayNo / 1461);
    jDayNo := jDayNo % 1461;
    if jDayNo >= 366 {
      jy := jy + (jDayNo - 1) / 365;
      jDayNo := (jDayNo - 1) % 365;
    }
    jm, jd := MonthAndDay(jDayNo);
  }

  method GregorianToJalali(gy: int, gm: int, gd: int) returns (jy: int, jm: int, jd: int)
    requires ValidGregorian(Date(gy, gm, gd))
    ensures Date(jy, jm, jd) == Convert(Date(gy, gm, gd))
  {
    var gDayNo := GregorianDayNo(gy, gm, gd);
    jy, jm, jd := JalaliOfDayNo(gDayNo - 79);
  }

  /** Where the month loop stops is the month that division finds. */
  lemma MonthOfDay(doy: int, month: int, rest: int)
    requires 0 <= doy <= 365 && 0 <= month <= 11 && 0 <= rest
    requires rest + JalaliDaysBefore(month + 1) == doy
    requires month == 11 || rest < J_D_M[month]
    ensures (month + 1, rest + 1) ==
            if doy < 186 then (doy / 31 + 1, doy % 31 + 1) else ((doy - 186) / 30 + 7, (doy - 186) % 30 + 1)
  {
  }

  // ── Jalali dates and day numbers are in bijection ─────────────────────────────────────────

  /** Where the conversion puts day `n`: the year starts at or before it, and it is the `doy`-th day. */
  lemma YearOfDay(n: int) returns (y: int, doy: int)
    ensures n == JalaliYearStart(y) + doy
    ensures 0 <= doy < (if JalaliLeap(y) then 366 else 365)
    ensures JalaliOfDay(n) ==
            if doy < 186 then Date(y, doy / 31 + 1, doy % 31 + 1)
            else Date(y, (doy - 186) / 30 + 7, (doy - 186) % 30 + 1)
  {
    var c, r := n / 12053, n % 12053;
    var b, q := r / 1461, r % 1461;
    var e := if q >= 366 then (q - 1) / 365 else 0;
    doy := if q >= 366 then (q - 1) % 365 else q;
    y := 979 + 33 * c + 4 * b + e;
    assert 0 <= b <= 8 && (b == 8 ==> q < 365) && 0 <= e <= 3;
    assert 0 <= 4 * b + e <= 32;
    CycleOfYear(c, 4 * b + e);
    assert (4 * b + e) / 4 == b && (4 * b + e) % 4 == e;
  }

  lemma CycleOfYear(c: int, k: int)
    requires 0 <= k < 33
    ensures (33 * c + k) / 33 == c && (33 * c + k) % 33 == k
  {
  }

  /** The day number of a converted day is that day, and the date is valid. */
  lemma JalaliDayOfDay(n: int)
    ensures ValidJalali(JalaliOfDay(n)) && JalaliDay(JalaliOfDay(n)) == n
  {
    var y, doy := YearOfDay(n);
  }

  lemma JalaliYearLength(y: int)
    ensures JalaliYearStart(y + 1) == JalaliYearStart(y) + (if JalaliLeap(y) then 366 else 365)
  {
    var k := y - 979;
    var c, r := k / 33, k % 33;
    if r < 32 {
      CycleOfYear(c, r + 1);
      assert k + 1 == 33 * c + (r + 1);
    } else {
      CycleOfYear(c + 1, 0);
      assert k + 1 == 33 * (c + 1);
    }
  }

  lemma JalaliSuccessor(j: Date)
    requires ValidJalali(j)
    ensures JalaliDay(NextJalali(j)) == JalaliDay(j) + 1
  {
    JalaliYearLength(j.y);
  }

  lemma {:induction false} JalaliYearsGrow(y: int, z: int)
    requires y <= z
    ensures JalaliYearStart(z) >= JalaliYearStart(y) + 365 * (z - y)
    decreases z - y
  {
    if y < z {
      JalaliYearsGrow(y, z - 1);
      JalaliYearLength(z - 1);
    }
  }

  /** Day numbers order Jalali dates; hence a valid date is the only one with its number. */
  lemma JalaliDayMonotone(a: Date, b: Date)
    requires ValidJalali(a) && ValidJalali(b)
    ensures JalaliDay(a) < JalaliDay(b) <==> Before(a, b)
    ensures JalaliDay(a) == JalaliDay(b) <==> a == b
  {
    JalaliWithinYear(a);
    JalaliWithinYear(b);
    if a.y < b.y { JalaliYearsGrow(a.y + 1, b.y); }
    if b.y < a.y { JalaliYearsGrow(b.y + 1, a.y); }
  }

  lemma JalaliWithinYear(j: Date)
    requires ValidJalali(j)
    ensures JalaliYearStart(j.y) <= JalaliDay(j) < JalaliYearStart(j.y + 1)
  {
    JalaliYearLength(j.y);
  }

  // ── So are Gregorian dates ────────────────────────────────────────────────────────────────

  lemma GregorianYearLength(y: int)
    ensures GregorianYearStart(y + 1) == GregorianYearStart(y) + (if GregorianLeap(y) then 366 else 365)
  {
    StepOf(y, 3, 4);
    StepOf(y, 99, 100);
    StepOf(y, 399, 400);
    LeapNesting(y);
  }

  lemma LeapNesting(y: int)
    ensures y % 400 == 0 ==> y % 100 == 0
    ensures y % 100 == 0 ==> y % 4 == 0
  {
  }

  /** One of the three quotients, from one year to the next. */
  lemma StepOf(y: int, a: int, n: int)
    requires (a, n) == (3, 4) || (a, n) == (99, 100) || (a, n) == (399, 400)
    ensures (y + 1 - 1600 + a) / n == (y - 1600 + a) / n + (if y % n == 0 then 1 else 0)
  {
    FloorStep(y - 1600 + a, n);
    SameResidue(y - 1600, n);
  }

  lemma SameResidue(k: int, n: int)
    requires n == 4 || n == 100 || n == 400
    ensures (k + n) % n == (k + 1600) % n
  {
    var q := 1600 / n - 1;
    assert k + 1600 == (k + n) + q * n;
  }

  lemma FloorStep(a: int, n: int)
    requires n == 4 || n == 100 || n == 400
    ensures (a + 1) / n == a / n + (if (a + 1) % n == 0 then 1 else 0)
  {
  }

  lemma GregorianYearDays(y: int)
    ensures GregorianDaysBefore(y, 13) == if GregorianLeap(y) then 366 else 365
  {
    DaysBeforeTable(y, 12);
  }

  lemma GregorianSuccessor(g: Date)
    requires ValidGregorian(g)
    ensures GregorianDay(NextGregorian(g)) == GregorianDay(g) + 1
  {
    GregorianYearLength(g.y);
    GregorianYearDays(g.y);
  }

  lemma {:induction false} DaysBeforeGrow(y: int, m: int, n: int)
    requires 1 <= m <= n <= 13
    ensures GregorianDaysBefore(y, m) <= GregorianDaysBefore(y, n)
    ensures m < n ==> GregorianDaysBefore(y, m) + GregorianMonth(y, m) <= GregorianDaysBefore(y, n)
    decreases n - m
  {
    if m < n { DaysBeforeGrow(y, m, n - 1); }
  }

  lemma {:induction false} GregorianYearsGrow(y: int, z: int)
    requires y <= z
    ensures GregorianYearStart(z) >= GregorianYearStart(y) + 365 * (z - y)
    decreases z - y
  {
    if y < z {
      GregorianYearsGrow(y, z - 1);
      GregorianYearLength(z - 1);
    }
  }

  lemma GregorianWithinYear(g: Date)
    requires ValidGregorian(g)
    ensures GregorianYearStart(g.y) <= GregorianDay(g) < GregorianYearStart(g.y + 1)
  {
    DaysBeforeGrow(g.y, 1, g.m);
    DaysBeforeGrow(g.y, g.m, 13);
    GregorianYearDays(g.y);
    GregorianYearLength(g.y);
  }

  lemma GregorianDayMonotone(a: Date, b: Date)
    requires ValidGregorian(a) && ValidGregorian(b)
    ensures GregorianDay(a) < GregorianDay(b) <==> Before(a, b)
    ensures GregorianDay(a) == GregorianDay(b) <==> a == b
  {
    GregorianWithinYear(a);
    GregorianWithinYear(b);
    if a.y < b.y { GregorianYearsGrow(a.y + 1, b.y); }
    if b.y < a.y { GregorianYearsGrow(b.y + 1, a.y); }
    if a.y == b.y && a.m < b.m { DaysBeforeGrow(a.y, a.m, b.m); }
    if a.y == b.y && b.m < a.m { DaysBeforeGrow(a.y, b.m, a.m); }
  }

  /** Every day number is some Gregorian date's, reached by counting days from 1 January 1600. */
  function GregorianOfDay(n: int): (g: Date)
    ensures ValidGregorian(g)
    decreases if n < 0 then -n else n
  {
    if n == 0 then Date(1600, 1, 1)
    else if n > 0 then NextGregorian(GregorianOfDay(n - 1))
    else PreviousGregorian(GregorianOfDay(n + 1))
  }

  function PreviousGregorian(g: Date): (r: Date)
    requires ValidGregorian(g)
    ensures ValidGregorian(r) && NextGregorian(r) == g
  {
    if g.d > 1 then g.(d := g.d - 1)
    else if g.m > 1 then Date(g.y, g.m - 1, GregorianMonth(g.y, g.m - 1))
    else Date(g.y - 1, 12, 31)
  }

  lemma {:induction false} GregorianDayOfDay(n: int)
    ensures GregorianDay(GregorianOfDay(n)) == n
    decreases if n < 0 then -n else n
  {
    if n > 0 {
      GregorianDayOfDay(n - 1);
      GregorianSuccessor(GregorianOfDay(n - 1));
    } else if n < 0 {
      GregorianDayOfDay(n + 1);
      GregorianSuccessor(GregorianOfDay(n));
    }
  }

  // ── The conversion ────────────────────────────────────────────────────────────────────────

  /** Valid dates go to valid dates of the same day. */
  lemma ConvertKeepsDay(g: Date)
    requires ValidGregorian(g)
    ensures ValidJalali(Convert(g)) && JalaliDay(Convert(g)) == GregorianDay(g) - 79
  {
    JalaliDayOfDay(GregorianDay(g) - 79);
  }

  lemma SameDayNext(g: Date, j: Date, k: Date)
    requires ValidGregorian(g) && ValidJalali(j) && ValidJalali(k)
    requires JalaliDay(j) == GregorianDay(g) - 79
    requires JalaliDay(k) == GregorianDay(NextGregorian(g)) - 79
    ensures k == NextJalali(j)
  {
    GregorianSuccessor(g);
    JalaliSuccessor(j);
    JalaliDayMonotone(k, NextJalali(j));
  }

  /** The next day goes to the next day. */
  lemma ConvertSuccessor(g: Date)
    requires ValidGregorian(g)
    ensures ValidJalali(Convert(g)) && Convert(NextGregorian(g)) == NextJalali(Convert(g))
  {
    ConvertKeepsDay(g);
    ConvertKeepsDay(NextGregorian(g));
    SameDayNext(g, Convert(g), Convert(NextGregorian(g)));
  }

  lemma ConvertOrder(a: Date, b: Date)
    requires ValidGregorian(a) && ValidGregorian(b)
    ensures Before(Convert(a), Convert(b)) <==> Before(a, b)
    ensures Convert(a) == Convert(b) <==> a == b
  {
    ConvertKeepsDay(a);
    ConvertKeepsDay(b);
    JalaliDayMonotone(Convert(a), Convert(b));
    GregorianDayMonotone(a, b);
  }

  function ConvertBack(j: Date): (g: Date)
    ensures ValidGregorian(g)
  {
    GregorianOfDay(JalaliDay(j) + 79)
  }

  lemma SameDayBack(g: Date, j: Date)
    requires ValidGregorian(g) && JalaliDay(j) == GregorianDay(g) - 79
    ensures ConvertBack(j) == g
  {
    GregorianDayOfDay(JalaliDay(j) + 79);
    GregorianDayMonotone(ConvertBack(j), g);
  }

  lemma SameDayForth(g: Date, j: Date)
    requires ValidGregorian(g) && ValidJalali(j) && JalaliDay(j) == GregorianDay(g) - 79
    ensures Convert(g) == j
  {
    ConvertKeepsDay(g);
    JalaliDayMonotone(Convert(g), j);
  }

  /** `ConvertBack` is a two-sided inverse. */
  lemma ConvertBijective(g: Date, j: Date)
    requires ValidGregorian(g) && ValidJalali(j)
    ensures ConvertBack(Convert(g)) == g
    ensures Convert(ConvertBack(j)) == j
  {
    ConvertKeepsDay(g);
    SameDayBack(g, Convert(g));
    GregorianDayOfDay(JalaliDay(j) + 79);
    SameDayForth(ConvertBack(j), j);
  }

  /** Nowruz 1404 and the leap day before it, as fixed points between the two calendars. */
  lemma KnownDates()
    ensures Convert(Date(2025, 3, 21)) == Date(1404, 1, 1)
    ensures Convert(Date(2025, 3, 20)) == Date(1403, 12, 30)
  {
    DaysBeforeTable(2025, 3);
    assert GregorianDay(Date(2025, 3, 21)) - 79 == 155229;
    assert JalaliYearStart(1404) == 155229;
    SameDayForth(Date(2025, 3, 21), Date(1404, 1, 1));
    SameDayForth(Date(2025, 3, 20), Date(1403, 12, 30));
  }
}
