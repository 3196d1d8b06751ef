/**
 * Monetary values and the two library calls the conversion code relies on:
 * lodash `round(x, 2)` and the money.js singleton `fx` (`fx.base`, `fx.rates`, `fx.convert`).
 */
module Money {
  import opened Wrappers

  /** A JavaScript amount field: a number, or one of the non-numbers a scraped record may carry. */
  datatype Amount = Null | Undefined | NaN | Num(value: real)

  /** JavaScript truthiness of an amount. */
  predicate Truthy(a: Amount): (b: bool)
    ensures !b <==> a == Null || a == Undefined || a == NaN || a == Num(0.0)
  {
    a.Num? && a.value != 0.0
  }

  /** Numeric coercion, as `*` applies it: `null` is 0, `undefined` is NaN. */
  function ToNumber(a: Amount): (r: Amount)
    ensures r.Num? || r.NaN?
    ensures a.Num? ==> r == a
    ensures a.Null? ==> r == Num(0.0)
    ensures a.Undefined? || a.NaN? ==> r.NaN?
  {
    match a
    case Null => Num(0.0)
    case Undefined => NaN
    case NaN => NaN
    case Num(v) => a
  }

  /** The amount is a whole number of cents. */
  predicate IsCents(x: real)
  {
    (100.0 * x).Floor as real == 100.0 * x
  }

  /**
   * lodash `round(x, 2)`: half-up rounding to two decimals. The result is the
   * whole-cent value within half a cent of `x`, ties going up.
   */
  function Round2(x: real): (r: real)
    ensures IsCents(r)
    ensures x - 0.005 < r <= x + 0.005
  {
    (100.0 * x + 0.5).Floor as real / 100.0
  }

  /** There is only one whole-cent value in (x - 0.005, x + 0.005], so Round2 is determined by its contract. */
  lemma Round2Unique(x: real, c: real)
    requires IsCents(c) && x - 0.005 < c <= x + 0.005
    ensures c == Round2(x)
  {
    var k := (100.0 * c).Floor;
    var m := (100.0 * Round2(x)).Floor;
    assert k as real == 100.0 * c;
    assert m as real == 100.0 * Round2(x);
    assert -1 < k - m < 1;
  }

  /** Rounding an amount that is already whole cents changes nothing. */
  lemma Round2Idempotent(x: real)
    ensures Round2(Round2(x)) == Round2(x)
  {
    var r := Round2(x);
    Round2Unique(r, r);
  }

  /** Rounding never reverses the order of two amounts. */
  lemma Round2Monotone(x: real, y: real)
    requires x <= y
    ensures Round2(x) <= Round2(y)
  {
    assert (100.0 * x + 0.5).Floor <= (100.0 * y + 0.5).Floor;
  }

  /** lodash `round(value, 2)` on a number or NaN. */
  function RoundAmount(a: Amount): (r: Amount)
    requires a.Num? || a.NaN?
    ensures a.NaN? <==> r.NaN?
    ensures r.Num? ==> IsCents(r.value) && a.value - 0.005 < r.value <= a.value + 0.005
  {
    if a.NaN? then NaN else Num(Round2(a.value))
  }

  /** A historical rate table: factors of each currency relative to `base`. */
  datatype RateTable = RateTable(base: string, rates: map<string, real>)

  /** The errors the conversion path can raise. */
  datatype ConvError =
    | NoRateTable   // the rate table looked up for the date is `undefined`; reading `.base` throws
    | FxError       // money.js throws "fx error": a currency has no (or a zero) rate
    | FxUnset       // fx.rates is null when fx.convert runs
    | NullAmount    // fx.convert reads `.length` of a `null` amount and throws a TypeError

  /** The money.js singleton's mutable basis. */
  datatype FxState = FxState(base: Option<string>, rates: Option<map<string, real>>)

  /** The basis after `fx.base = null; fx.rates = null`. */
  const Reset := FxState(None, None)

  /** `rates[code]` after money.js has set `rates[fx.base] = 1`; a missing entry reads as 0 (falsy). */
  function RateOf(base: Option<string>, rates: map<string, real>, code: string): (f: real)
    ensures base == Some(code) ==> f == 1.0
    ensures base != Some(code) && code !in rates ==> f == 0.0
  {
    if base == Some(code) then 1.0 else if code in rates then rates[code] else 0.0
  }

  /** money.js `getRate(to, from)`: the factor that turns a `from` amount into a `to` amount. */
  function GetRate(s: FxState, from: string, to: string): (r: Result<real, ConvError>)
    ensures s.rates.None? ==> r == Failure(FxUnset)
    ensures s.rates.Some? ==>
              (r.Success? <==> RateOf(s.base, s.rates.value, from) != 0.0 && RateOf(s.base, s.rates.value, to) != 0.0)
    ensures s.rates.Some? && r.Failure? ==> r.error == FxError
  {
    if s.rates.None? then Failure(FxUnset)
    else
      var rt := RateOf(s.base, s.rates.value, to);
      var rf := RateOf(s.base, s.rates.value, from);
      if rt == 0.0 || rf == 0.0 then Failure(FxError)
      else if s.base == Some(from) then Success(rt)
      else if s.base == Some(to) then Success(1.0 / rf)
      else Success(rt * (1.0 / rf))
  }

  /** Whichever branch getRate takes, the factor is rates[to] / rates[from]. */
  lemma GetRateIsQuotient(s: FxState, from: string, to: string)
    requires GetRate(s, from, to).Success?
    ensures GetRate(s, from, to).value == RateOf(s.base, s.rates.value, to) / RateOf(s.base, s.rates.value, from)
  {
  }

  /** JavaScript `*` on two finite numbers. */
  function Times(a: real, b: real): real
  {
    a * b
  }

  /**
   * money.js `fx.convert(val, { from, to })`: the numeric value of `val` times the rate.
   * Its first step, the array test `typeof val === 'object' && val.length`, throws on `null`
   * before any rate is read.
   */
  function FxConvert(s: FxState, val: Amount, from: string, to: string): (r: Result<Amount, ConvError>)
    ensures val.Null? ==> r == Failure(NullAmount)
    ensures !val.Null? ==> (r.Success? <==> GetRate(s, from, to).Success?)
    ensures !val.Null? && r.Failure? ==> r.error == GetRate(s, from, to).error
    ensures r.Success? && ToNumber(val).NaN? ==> r.value.NaN?
    ensures r.Success? && ToNumber(val).Num? ==> r.value == Num(Times(ToNumber(val).value, GetRate(s, from, to).value))
  {
    if val.Null? then Failure(NullAmount)
    else
      var rate := GetRate(s, from, to);
      if rate.Failure? then Failure(rate.error)
      else
        var n := ToNumber(val);
        if n.NaN? then Success(NaN) else Success(Num(Times(n.value, rate.value)))
  }

  /** The basis `fx` holds after `fx.base = table.base; fx.rates = table.rates`. */
  function Load(table: RateTable): (s: FxState)
    ensures s.base == Some(table.base) && s.rates == Some(table.rates)
  {
    FxState(Some(table.base), Some(table.rates))
  }

  /** The table quotes both currencies with a usable (non-zero) factor. */
  predicate CanConvert(table: RateTable, from: string, to: string)
  {
    RateOf(Some(table.base), table.rates, from) != 0.0 && RateOf(Some(table.base), table.rates, to) != 0.0
  }

  /** What one conversion returns, and the basis `fx` is left holding. */
  datatype Conversion = Conversion(value: Result<Amount, ConvError>, after: FxState)

  /** Triangulation through the base currency, as a standalone reference. */
  function Triangulate(table: RateTable, amount: real, from: string, to: string): real
    requires RateOf(Some(table.base), table.rates, from) != 0.0
  {
    amount / RateOf(Some(table.base), table.rates, from) * RateOf(Some(table.base), table.rates, to)
  }

  /** Converting with a loaded table is triangulation through that table's base. */
  lemma FxConvertTriangulates(table: RateTable, amount: real, from: string, to: string)
    requires FxConvert(Load(table), Num(amount), from, to).Success?
    ensures RateOf(Some(table.base), table.rates, from) != 0.0
    ensures FxConvert(Load(table), Num(amount), from, to).value == Num(Triangulate(table, amount, from, to))
  {
    var rf := RateOf(Some(table.base), table.rates, from);
    var rt := RateOf(Some(table.base), table.rates, to);
    GetRateIsQuotient(Load(table), from, to);
    assert amount * (rt / rf) == amount / rf * rt;
  }
}
