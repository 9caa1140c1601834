/** Crypto invoices that an incoming transfer is to be told apart by its amount
    (services/crypto_autoconfirm.py, apps/bot/handlers/user/topup.py). Amounts are exact; `Units` is an
    amount in the smallest unit its currency is quoted in. */
module Invoices {
  import opened Options
  import opened Texts
  import opened CryptoClaims
  import opened Decimals

  const USDT_TRC20 := ["USDT TRC20", "USDT-TRC20", "USDT (TRC20)"]
  const TRX := ["TRX", "TRON"]
  const TON := ["TON"]
  const AUTOCONFIRM: seq<string> := USDT_TRC20 + TRX + TON

  predicate IsAutoconfirmable(currency: string) { currency != "" && CurrencyKey(currency) in AUTOCONFIRM }

  // ── Quantizing ────────────────────────────────────────────────────────────────────────────

  function Scale(currency: string): (r: real)
    ensures r == 1_000_000.0 || r == 100_000_000.0
  {
    if CurrencyKey(currency) in AUTOCONFIRM then 1_000_000.0 else 100_000_000.0
  }

  function Units(amount: real, currency: string): int { HalfEven(amount * Scale(currency)) }

  function Quantize(amount: real, currency: string): real { Units(amount, currency) as real / Scale(currency) }

  predicate AmountMatches(currency: string, expected: real, actual: real) {
    Quantize(expected, currency) == Quantize(actual, currency)
  }

  lemma UnitsOf(n: int, currency: string)
    ensures Units(n as real / Scale(currency), currency) == n
  {
    hide HalfEven, Scale;
    var s := Scale(currency);
    assert n as real / s * s == n as real;
    HalfEvenIsClose(n as real);
    assert (n as real).Floor == n;
  }

  /** Equal after quantizing means equal in units, and a quantized amount is its own. */
  lemma MatchesIff(currency: string, expected: real, actual: real)
    ensures AmountMatches(currency, expected, actual) <==> Units(expected, currency) == Units(actual, currency)
    ensures Quantize(Quantize(actual, currency), currency) == Quantize(actual, currency)
  {
    hide HalfEven, Scale;
    var s := Scale(currency);
    assert Quantize(expected, currency) * s == Units(expected, currency) as real;
    assert Quantize(actual, currency) * s == Units(actual, currency) as real;
    UnitsOf(Units(actual, currency), currency);
  }

  /** Six decimals for USDT on TRON, TRX and TON, under all their names, and eight for all others. */
  lemma ScaleIs(currency: string)
    ensures Scale(currency) ==
            if CurrencyKey(currency) == "USDT TRC20" || CurrencyKey(currency) == "TRX" || CurrencyKey(currency) == "TON"
            then 1_000_000.0 else 100_000_000.0
  {
    hide Upper, Strip;
  }

  /** The column keeps eight decimals, and no currency is quoted in more: what is stored is what the
      customer is asked for. */
  lemma FitsColumn(amount: real, currency: string, column: string)
    requires Scale(column) == 100_000_000.0
    ensures Quantize(Quantize(amount, currency), column) == Quantize(amount, currency)
  {
    hide HalfEven, Scale;
    var n := Units(amount, currency);
    var m := if Scale(currency) == 1_000_000.0 then 100 * n else n;
    assert Quantize(amount, currency) == m as real / Scale(column);
    UnitsOf(m, column);
  }

  // ── Drawing an amount ─────────────────────────────────────────────────────────────────────

  const TRIES := 50
  const MAX_SUFFIX := 9999

  function Candidate(base: real, currency: string, suffix: int): real {
    Quantize(Quantize(base, currency) + suffix as real / Scale(currency), currency)
  }

  predicate Taken(amount: real, currency: string, existing: seq<real>) {
    exists i :: 0 <= i < |existing| && Quantize(existing[i], currency) == amount
  }

  /** `draws` are the values of `random.randint(1, 9999)`; `None` is the error after the last try. */
  function UniqueAmount(base: real, currency: string, existing: seq<real>, draws: seq<int>): Option<real> {
    if draws == [] then None
    else if !Taken(Candidate(base, currency, draws[0]), currency, existing) then
      Some(Candidate(base, currency, draws[0]))
    else UniqueAmount(base, currency, existing, draws[1..])
  }

  ghost predicate AreDraws(draws: seq<int>) {
    |draws| == TRIES && forall i :: 0 <= i < |draws| ==> 1 <= draws[i] <= MAX_SUFFIX
  }

  lemma TimesUnit(n: real, scale: real)
    requires scale == 1_000_000.0 || scale == 100_000_000.0
    ensures n * (1.0 / scale) == n / scale
  {
  }

  method QuantizedSet(existing: seq<real>, currency: string) returns (pending: set<real>)
    ensures forall a :: a in pending <==> Taken(a, currency, existing)
  {
    pending := {};
    for i := 0 to |existing|
      invariant forall a :: a in pending <==> exists k :: 0 <= k < i && Quantize(existing[k], currency) == a
    {
      pending := pending + {Quantize(existing[i], currency)};
    }
  }

  method GenerateUniquePayAmount(baseAmount: real, currency: string, existing: seq<real>, draws: seq<int>)
    returns (amount: Option<real>)
    requires |draws| == 50 && forall i :: 0 <= i < |draws| ==> 1 <= draws[i] <= 9999
    ensures amount == UniqueAmount(baseAmount, currency, existing, draws)
  {
    hide Quantize, Taken, Scale;
    var base := Quantize(baseAmount, currency);
    var pending := QuantizedSet(existing, currency);
    var unit := 1.0 / Scale(currency);
    for i := 0 to TRIES
      invariant UniqueAmount(baseAmount, currency, existing, draws)
                == UniqueAmount(baseAmount, currency, existing, draws[i..])
    {
      var suffix := draws[i] as real * unit;
      var candidate := Quantize(base + suffix, currency);
      assert suffix == draws[i] as real / Scale(currency) by { TimesUnit(draws[i] as real, Scale(currency)); }
      assert candidate == Candidate(baseAmount, currency, draws[i]);
      if candidate !in pending {
        return Some(candidate);
      }
      assert draws[i..][1..] == draws[i + 1..];
    }
    return None;
  }

  lemma CandidateUnits(base: real, currency: string, suffix: int)
    ensures Units(Candidate(base, currency, suffix), currency) == Units(base, currency) + suffix
    ensures Candidate(base, currency, suffix) == (Units(base, currency) + suffix) as real / Scale(currency)
  {
    hide HalfEven, Scale;
    var n, s := Units(base, currency), Scale(currency);
    assert n as real / s + suffix as real / s == (n + suffix) as real / s by { hide Units; }
    UnitsOf(n + suffix, currency);
  }

  lemma CandidateIsAbove(base: real, currency: string, suffix: int)
    requires 1 <= suffix <= MAX_SUFFIX
    ensures
      var c := Candidate(base, currency, suffix);
      base < c < base + 10_000.0 / Scale(currency) && Quantize(c, currency) == c
  {
    CandidateUnits(base, currency, suffix);
    HalfEvenIsClose(base * Scale(currency));
    hide HalfEven;
  }

  lemma NotTaken(amount: real, currency: string, existing: seq<real>)
    requires !Taken(amount, currency, existing) && Quantize(amount, currency) == amount
    ensures forall i :: 0 <= i < |existing| ==> Units(existing[i], currency) != Units(amount, currency)
  {
    hide Units, Scale;
  }

  /** What comes out differs from every amount already asked for, and is above the base by less than
      ten thousand units; nothing comes out exactly when every draw hits a taken amount. */
  lemma {:induction false} UniqueAmountIs(base: real, currency: string, existing: seq<real>, draws: seq<int>)
    requires forall i :: 0 <= i < |draws| ==> 1 <= draws[i] <= 9999
    ensures UniqueAmount(base, currency, existing, draws).None?
            <==> forall i :: 0 <= i < |draws| ==> Taken(Candidate(base, currency, draws[i]), currency, existing)
    ensures
      var r := UniqueAmount(base, currency, existing, draws);
      r.Some? ==>
        && (forall i :: 0 <= i < |existing| ==> Units(existing[i], currency) != Units(r.value, currency))
        && base < r.value < base + 10_000.0 / Scale(currency)
        && Quantize(r.value, currency) == r.value
  {
    hide Candidate, Units, Quantize, Scale, Taken;
    if draws != [] {
      var c := Candidate(base, currency, draws[0]);
      if Taken(c, currency, existing) {
        UniqueAmountIs(base, currency, existing, draws[1..]);
        assert forall i :: 1 <= i < |draws| ==> draws[i] == draws[1..][i - 1];
      } else {
        CandidateIsAbove(base, currency, draws[0]);
        NotTaken(c, currency, existing);
      }
    }
  }

  /** It is the first draw that hits no taken amount, added in the smallest unit. */
  lemma {:induction false} FirstFreeDraw(base: real, currency: string, existing: seq<real>, draws: seq<int>)
    returns (k: nat)
    requires UniqueAmount(base, currency, existing, draws).Some?
    ensures
      var r := UniqueAmount(base, currency, existing, draws).value;
      && k < |draws| && Units(r, currency) == Units(base, currency) + draws[k]
      && !Taken(r, currency, existing)
      && forall i :: 0 <= i < k ==> Taken(Candidate(base, currency, draws[i]), currency, existing)
  {
    var c := Candidate(base, currency, draws[0]);
    CandidateUnits(base, currency, draws[0]);
    hide Candidate, Units, Taken;
    if Taken(c, currency, existing) {
      var later := FirstFreeDraw(base, currency, existing, draws[1..]);
      k := later + 1;
      assert forall i :: 1 <= i < k ==> draws[i] == draws[1..][i - 1];
    } else {
      k := 0;
    }
  }
}
