/** Exact money: an integral number of minor units of one currency.
    The Money class itself is not part of this model; this is the abstraction of
    it that the split needs: a sign, an absolute value, equality, and the two
    constructors the split parser calls. */
module Monies {
  import opened Results
  import Text

  /** Minor-unit digits of a currency. ISO 4217 currencies use at most four,
      and up to nine `(int) Math.pow(10, d)` is exact. */
  type Digits = d: nat | d <= 9

  /** A currency, as `java.util.Currency` describes it: its code and its
      default number of fraction digits. */
  datatype Currency = Currency(code: string, fractionDigits: Digits)

  /** The currencies known to the runtime, by code (`Currency.getInstance`). */
  type CurrencyTable = map<string, Digits>

  function Pow10(n: nat): (p: nat)
    ensures p >= 1
  {
    if n == 0 then 1 else 10 * Pow10(n - 1)
  }

  /** `10^fractionDigits`: the number of minor units in one major unit. */
  function Denominator(c: Currency): (d: nat)
    ensures 1 <= d && Text.InInt32(d)
  {
    DenominatorBound(c.fractionDigits);
    Pow10(c.fractionDigits)
  }

  lemma {:induction false} DenominatorBound(n: Digits)
    ensures Pow10(n) <= 1_000_000_000
  {
    if n > 0 {
      DenominatorBound(n - 1);
      PowMonotone(n - 1, 8);
    }
  }

  lemma {:induction false} PowMonotone(m: nat, n: nat)
    requires m <= n
    ensures Pow10(m) <= Pow10(n)
  {
    if m < n {
      PowMonotone(m, n - 1);
    }
  }

  /** An amount of `amount / Denominator(currency)` units of `currency`. */
  datatype Money = Money(amount: int, currency: Currency) {

    /** Below zero; a negative amount is exactly one its absolute value
        changes. */
    predicate IsNegative()
      ensures IsNegative() <==> Absolute() != this
    {
      amount < 0
    }

    /** The same amount without its sign. */
    function Absolute(): (r: Money)
      ensures r.currency == currency
      ensures r.amount >= 0
      ensures r.amount == amount || r.amount == -amount
    {
      if amount < 0 then Money(-amount, currency) else this
    }
  }

  /** The absolute value of an absolute value is itself, and two amounts have
      equal absolute values exactly when they are equal or opposite. */
  lemma AbsoluteEqual(a: Money, b: Money)
    ensures !a.Absolute().IsNegative()
    ensures a.Absolute().Absolute() == a.Absolute()
    ensures a.Absolute() == b.Absolute() <==>
              a.currency == b.currency && (a.amount == b.amount || a.amount == -b.amount)
  {
  }

  /** `n / d` rounded to the nearest integer, ties to the even one. */
  function RoundHalfEven(n: int, d: int): (q: int)
    requires d > 0
    ensures 2 * (n - q * d) <= d && 2 * (q * d - n) <= d
    ensures n % d == 0 ==> q * d == n
    ensures 2 * (n - q * d) == d || 2 * (q * d - n) == d ==> q % 2 == 0
  {
    var f := n / d;
    var r := n % d;
    assert n == f * d + r && 0 <= r < d;
    if 2 * r < d then f
    else if 2 * r > d then f + 1
    else if f % 2 == 0 then f
    else f + 1
  }

  /** `Currency.getInstance(code)`: an unknown code is an error. */
  function GetCurrency(currencies: CurrencyTable, code: string): (r: Result<Currency>)
    ensures r.Ok? <==> code in currencies
    ensures r.Ok? ==> r.value.code == code && r.value.fractionDigits == currencies[code]
    ensures r.Err? ==> r.error == UnknownCurrency(code)
  {
    if code in currencies then Ok(Currency(code, currencies[code])) else Err(UnknownCurrency(code))
  }

  /** The money closest to `num / denom` units of `currency`, ties to even:
      what `new Money(num, denom, code)` holds. A zero denominator fails. */
  function FromFraction(num: int, denom: int, currency: Currency): (r: Result<Money>)
    ensures r.Err? <==> denom == 0
    ensures r.Err? ==> r.error == DivisionByZero
    ensures r.Ok? ==> r.value.currency == currency
    ensures denom == Denominator(currency) ==> r == Ok(Money(num, currency))
  {
    if denom == 0 then Err(DivisionByZero)
    else
      var p := Denominator(currency);
      if denom == p then
        ExactQuotient(num, p);
        Ok(Money(RoundHalfEven(num * p, denom), currency))
      else if denom > 0 then Ok(Money(RoundHalfEven(num * p, denom), currency))
      else Ok(Money(RoundHalfEven(-(num * p), -denom), currency))
  }

  /** The amount built from a fraction is within half a minor unit of the
      fraction, and an exact tie lands on an even number of minor units. */
  lemma FromFractionRounds(num: int, denom: int, currency: Currency)
    requires denom != 0
    ensures
      var amount := FromFraction(num, denom, currency).value.amount;
      var scaled := num * Denominator(currency);
      var d := if denom > 0 then denom else -denom;
      var n := if denom > 0 then scaled else -scaled;
      && 2 * (n - amount * d) <= d && 2 * (amount * d - n) <= d
      && (2 * (n - amount * d) == d || 2 * (amount * d - n) == d ==> amount % 2 == 0)
  {
    var p := Denominator(currency);
    if denom == p {
      ExactQuotient(num, p);
    }
  }

  lemma ExactQuotient(k: int, p: int)
    requires p > 0
    ensures (k * p) % p == 0 && (k * p) / p == k
    ensures RoundHalfEven(k * p, p) == k
  {
    var a := k * p;
    var q, r := a / p, a % p;
    assert a == q * p + r && 0 <= r < p;
    assert (k - q) * p == r by {
      assert (k - q) * p == k * p - q * p;
    }
    ProductBound(k - q, p);
    var h := RoundHalfEven(a, p);
    assert h * p == a;
    assert (h - k) * p == 0 by {
      assert (h - k) * p == h * p - k * p;
    }
    ProductBound(h - k, p);
  }

  /** A non-zero multiple of `p` is at least `p` away from zero. */
  lemma ProductBound(x: int, p: int)
    requires p > 0
    ensures x >= 1 ==> x * p >= p
    ensures x <= -1 ==> x * p <= -p
  {
    if x >= 1 {
      assert x * p == (x - 1) * p + p;
    } else if x <= -1 {
      assert x * p == (x + 1) * p - p;
    }
  }

  /** `new Money(String amount, String code)`: parses the decimal amount, then
      looks up the currency, then rounds to its minor unit, ties to even. */
  function FromDecimalString(amount: string, code: string, currencies: CurrencyTable): (r: Result<Money>)
    ensures r.Ok? ==> r.value.currency.code == code && code in currencies
    ensures Text.ParseDecimal(amount).Err? ==> r == Err(NumberFormat(amount))
  {
    var d :- Text.ParseDecimal(amount);
    var currency :- GetCurrency(currencies, code);
    FromFraction(d.unscaled, Pow10(d.scale), currency)
  }
}
