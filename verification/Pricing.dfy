/**
 * Pricing an invoice at a frozen rate (packages/shared/src/money/exchange-rate.ts:101-137,
 * apps/api/src/invoices/invoices.service.ts:105-106) and what a payment judged EXACT is worth.
 */
module Pricing {
  import opened Basics
  import opened Rounding
  import opened Decimal
  import opened Payments

  const RATE_SCALE := 18

  datatype Money = Money(units: int, asset: Asset, decimals: int)

  /** One whole `base` is worth numerator / 10^18 whole `quote`. */
  datatype Rate = Rate(base: Asset, quote: Asset, numerator: int)

  /** What the constructors enforce: a positive rate, a supported number of decimals. */
  predicate ValidRate(rate: Rate) { rate.numerator > 0 }
  predicate ValidMoney(money: Money) { ValidDecimals(money.decimals) }

  function ConvertQuoteToBase(rate: Rate, amount: Money, baseDecimals: int, mode: Mode): Outcome<Money>
    requires ValidRate(rate) && ValidMoney(amount)
  {
    if amount.asset != rate.quote || !ValidDecimals(baseDecimals) then Abort
    else
      var numerator := amount.units * Pow10(baseDecimals) * Pow10(RATE_SCALE);
      var denominator := Pow10(amount.decimals) * rate.numerator;
      ProductPositive(Pow10(amount.decimals), rate.numerator);
      Commit(Money(Divide(numerator, denominator, mode), rate.base, baseDecimals))
  }

  function ConvertBaseToQuote(rate: Rate, amount: Money, quoteDecimals: int, mode: Mode): Outcome<Money>
    requires ValidRate(rate) && ValidMoney(amount)
  {
    if amount.asset != rate.base || !ValidDecimals(quoteDecimals) then Abort
    else
      var numerator := amount.units * rate.numerator * Pow10(quoteDecimals);
      var denominator := Pow10(RATE_SCALE) * Pow10(amount.decimals);
      ProductPositive(Pow10(RATE_SCALE), Pow10(amount.decimals));
      Commit(Money(Divide(numerator, denominator, mode), rate.quote, quoteDecimals))
  }

  lemma ProductPositive(x: int, y: int)
    requires x >= 1 && y >= 1
    ensures x * y >= 1
  {
    MulMono(1, x, y);
  }

  /** Rounding the price up and the value down are adjoint. */
  lemma FloorCeilAdjoint(p: int, a: int, x: int, y: int)
    requires x >= 1 && y >= 1
    ensures DivFloor(p * x, y) >= a <==> p >= DivCeil(a * y, x)
  {
    FloorBrackets(p * x, y);
    CeilBrackets(a * y, x);
    var worth, price := DivFloor(p * x, y), DivCeil(a * y, x);
    hide DivFloor, DivCeil;
    if worth >= a && p < price {
      MulMono(a, worth, y);
      MulMono(p, price - 1, x);
    }
    if worth < a && p >= price {
      MulMono(worth + 1, a, y);
      MulMono(price, p, x);
    }
  }

  lemma Regroup(a: int, b: int, c: int)
    ensures a * b * c == a * (b * c) && b * c == c * b
  {
  }

  /** Value at the frozen rate, rounded down, in the currency of the request. */
  function Worth(rate: Rate, units: int, baseDecimals: int, requested: Money): int
    requires ValidRate(rate) && ValidDecimals(baseDecimals) && ValidMoney(requested)
  {
    ConvertBaseToQuote(rate, Money(units, rate.base, baseDecimals), requested.decimals, Floor).value.units
  }

  /** The invoice price: the fiat request converted with rounding up. */
  function Price(rate: Rate, requested: Money, baseDecimals: int): int
    requires ValidRate(rate) && ValidDecimals(baseDecimals) && ValidMoney(requested) && requested.asset == rate.quote
  {
    ConvertQuoteToBase(rate, requested, baseDecimals, Ceil).value.units
  }

  /**
   * The price against the quotation, by cross-multiplication: one unit of base less would fall short of
   * requested / 10^decimals quote at numerator / 10^18, the price does not.
   */
  lemma PriceBrackets(rate: Rate, requested: Money, baseDecimals: int)
    requires ValidRate(rate) && ValidDecimals(baseDecimals) && ValidMoney(requested) && requested.asset == rate.quote
    ensures var price := Price(rate, requested, baseDecimals);
            var perUnit := rate.numerator * Pow10(requested.decimals);
            (price - 1) * perUnit < requested.units * (Pow10(18) * Pow10(baseDecimals)) <= price * perUnit
  {
    var q, b, s := Pow10(requested.decimals), Pow10(baseDecimals), Pow10(RATE_SCALE);
    hide Pow10, DivCeil;
    ProductPositive(rate.numerator, q);
    Regroup(requested.units, b, s);
    Regroup(1, q, rate.numerator);
    CeilBrackets(requested.units * (s * b), rate.numerator * q);
  }

  /** The value against the quotation: at most the exact value, and less than one unit of quote below it. */
  lemma WorthBrackets(rate: Rate, units: int, baseDecimals: int, requested: Money)
    requires ValidRate(rate) && ValidDecimals(baseDecimals) && ValidMoney(requested)
    ensures var worth := Worth(rate, units, baseDecimals, requested);
            var scale := Pow10(18) * Pow10(baseDecimals);
            worth * scale <= units * (rate.numerator * Pow10(requested.decimals)) < (worth + 1) * scale
  {
    var q, b, s := Pow10(requested.decimals), Pow10(baseDecimals), Pow10(RATE_SCALE);
    hide Pow10, DivFloor;
    ProductPositive(s, b);
    Regroup(units, rate.numerator, q);
    FloorBrackets(units * (rate.numerator * q), s * b);
  }

  /** A conversion is refused exactly for an amount in another currency or a precision out of range. */
  lemma ConvertsExactly(rate: Rate, amount: Money, decimals: int, mode: Mode)
    requires ValidRate(rate) && ValidMoney(amount)
    ensures var r := ConvertQuoteToBase(rate, amount, decimals, mode);
            (r.Commit? <==> amount.asset == rate.quote && 0 <= decimals <= 36) && (r.Commit? ==> r.value.asset == rate.base && r.value.decimals == decimals)
    ensures var r := ConvertBaseToQuote(rate, amount, decimals, mode);
            (r.Commit? <==> amount.asset == rate.base && 0 <= decimals <= 36) && (r.Commit? ==> r.value.asset == rate.quote && r.value.decimals == decimals)
  {
    hide Pow10, Divide;
  }

  /** An amount covers the request exactly from the price on: the price is the least such amount. */
  lemma PriceIsLeast(rate: Rate, requested: Money, baseDecimals: int, paid: int)
    requires ValidRate(rate) && ValidDecimals(baseDecimals) && ValidMoney(requested) && requested.asset == rate.quote
    ensures Worth(rate, paid, baseDecimals, requested) >= requested.units <==> paid >= Price(rate, requested, baseDecimals)
  {
    var q, b, s := Pow10(requested.decimals), Pow10(baseDecimals), Pow10(RATE_SCALE);
    hide Pow10, DivFloor, DivCeil;
    ProductPositive(rate.numerator, q);
    ProductPositive(s, b);
    Regroup(paid, rate.numerator, q);
    Regroup(requested.units, b, s);
    assert Worth(rate, paid, baseDecimals, requested) == DivFloor(paid * (rate.numerator * q), s * b);
    assert Price(rate, requested, baseDecimals) == DivCeil(requested.units * (s * b), rate.numerator * q);
    FloorCeilAdjoint(paid, requested.units, rate.numerator * q, s * b);
  }

  lemma PricePositive(rate: Rate, requested: Money, baseDecimals: int)
    requires ValidRate(rate) && ValidDecimals(baseDecimals) && ValidMoney(requested) && requested.asset == rate.quote
    requires requested.units > 0
    ensures Price(rate, requested, baseDecimals) > 0
  {
    PriceIsLeast(rate, requested, baseDecimals, 0);
    var s, b := Pow10(RATE_SCALE), Pow10(baseDecimals);
    hide Price, DivFloor, Pow10;
    ProductPositive(s, b);
    FloorBrackets(0, s * b);
    NothingIsWorthNothing(DivFloor(0, s * b), s * b);
    assert 0 * rate.numerator == 0 && 0 * Pow10(requested.decimals) == 0;
  }

  lemma NothingIsWorthNothing(q: int, d: int)
    requires d >= 1 && q * d <= 0 < (q + 1) * d
    ensures q == 0
  {
    if q >= 1 { MulMono(1, q, d); }
    if q <= -1 { MulMono(q + 1, 0, d); }
  }

  /**
   * With no underpayment tolerance a payment is judged too small exactly when its value does not
   * cover the request; so one judged EXACT is worth at least what was asked.
   */
  lemma JudgedByWorth(rate: Rate, requested: Money, baseDecimals: int, received: int, overBps: int)
    requires ValidRate(rate) && ValidDecimals(baseDecimals) && ValidMoney(requested) && requested.asset == rate.quote
    requires requested.units > 0 && ValidBps(overBps) && received != 0
    ensures var outcome := EvaluatePayment(Price(rate, requested, baseDecimals), received, 0, overBps);
            && outcome.Commit?
            && (outcome.value == UNDERPAYMENT <==> Worth(rate, received, baseDecimals, requested) < requested.units)
            && (outcome.value == EXACT ==> Worth(rate, received, baseDecimals, requested) >= requested.units)
  {
    hide Price, Worth, BpsFloor;
    PricePositive(rate, requested, baseDecimals);
    PriceIsLeast(rate, requested, baseDecimals, received);
    AcceptedBand(Price(rate, requested, baseDecimals), 0, overBps);
  }
}
