/**
 * The converter of `src/helpers/currency.js`: no falsy-amount guard, and the
 * `fx` singleton is overwritten from the given table before every use and left loaded.
 */
module Currency {
  import opened Wrappers
  import opened Money

  /** `convert(amount, rate, from, to)` run against `fx` in state `s`. */
  function Convert(s: FxState, amount: Amount, rate: Option<RateTable>, from: string, to: string): (c: Conversion)
    ensures rate.None? ==> c == Conversion(Failure(NoRateTable), s)
    ensures rate.Some? ==> c.after == Load(rate.value)
    ensures rate.Some? ==> (c.value.Success? <==> !amount.Null? && CanConvert(rate.value, from, to))
    ensures c.value.Failure? && rate.Some? ==> c.value.error == (if amount.Null? then NullAmount else FxError)
    ensures c.value.Success? ==> (c.value.value.NaN? <==> ToNumber(amount).NaN?)
    ensures c.value.Success? && ToNumber(amount).Num? ==>
              && CanConvert(rate.value, from, to)
              && c.value.value == Num(Round2(Triangulate(rate.value, ToNumber(amount).value, from, to)))
  {
    if rate.None? then Conversion(Failure(NoRateTable), s)
    else
      var loaded := Load(rate.value);
      var converted := FxConvert(loaded, amount, from, to);
      if converted.Failure? then Conversion(Failure(converted.error), loaded)
      else
        if ToNumber(amount).Num? then
          FxConvertTriangulates(rate.value, ToNumber(amount).value, from, to);
          assert converted == FxConvert(loaded, Num(ToNumber(amount).value), from, to);
          Conversion(Success(RoundAmount(converted.value)), loaded)
        else
          Conversion(Success(RoundAmount(converted.value)), loaded)
  }

  /** Every number `convert` returns is a whole number of cents. */
  lemma ConvertReturnsCents(s: FxState, amount: Amount, rate: Option<RateTable>, from: string, to: string)
    requires Convert(s, amount, rate, from, to).value.Success?
    requires Convert(s, amount, rate, from, to).value.value.Num?
    ensures IsCents(Convert(s, amount, rate, from, to).value.value.value)
  {
  }

  /** Because the basis is overwritten first, the result depends only on (amount, rate, from, to). */
  lemma ConvertIgnoresPriorState(s1: FxState, s2: FxState, amount: Amount, rate: Option<RateTable>, from: string, to: string)
    ensures Convert(s1, amount, rate, from, to).value == Convert(s2, amount, rate, from, to).value
  {
  }

  /**
   * Falsy amounts reach `fx.convert` unguarded: 0 converts to 0 rather than `null`,
   * `null` makes `fx.convert` throw, and `undefined` converts to NaN.
   */
  lemma ConvertHasNoFalsyGuard(s: FxState, table: RateTable, from: string, to: string)
    requires CanConvert(table, from, to)
    ensures Convert(s, Num(0.0), Some(table), from, to).value == Success(Num(0.0))
    ensures Convert(s, Null, Some(table), from, to).value == Failure(NullAmount)
    ensures Convert(s, Undefined, Some(table), from, to).value == Success(NaN)
  {
    assert Triangulate(table, 0.0, from, to) == 0.0;
    Round2Unique(0.0, 0.0);
  }

  /** A USD-based table: 100 USD and 90 EUR both come to 360.00 ILS, the latter triangulated through USD. */
  lemma TriangulationExample(s: FxState)
    ensures var table := RateTable("USD", map["USD" := 1.0, "EUR" := 0.9, "ILS" := 3.6]);
            && Convert(s, Num(100.0), Some(table), "USD", "ILS").value == Success(Num(360.0))
            && Convert(s, Num(90.0), Some(table), "EUR", "ILS").value == Success(Num(360.0))
  {
    var table := RateTable("USD", map["USD" := 1.0, "EUR" := 0.9, "ILS" := 3.6]);
    assert Triangulate(table, 100.0, "USD", "ILS") == 360.0;
    assert Triangulate(table, 90.0, "EUR", "ILS") == 360.0;
    Round2Unique(360.0, 360.0);
  }
}
