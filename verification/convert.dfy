/**
 * The transaction normaliser of `src/helpers/convert.js`: which days need a rate
 * table, and the per-transaction rewrite into the local currency with an audit
 * snapshot in `meta`.
 */
module Convert {
  import opened Wrappers
  import opened Sequences
  import opened Calendar
  import opened Money
  import opened Transactions
  import Currency

  /** `asRateDate`: the `YYYY-MM-DD` key a day's rate table is stored under. */
  function AsRateDate(date: DateTime): (key: string)
    ensures |key| == 10
  {
    IsoDay(date)
  }

  /** Two timestamps share a rate key exactly when they fall on the same day. */
  lemma AsRateDateIdentifiesDay(a: DateTime, b: DateTime)
    ensures AsRateDate(a) == AsRateDate(b) <==> SameDay(a, b)
  {
    IsoDayIdentifiesDay(a, b);
  }

  /** `selectCurrency`: the transaction's currency with the legacy alias `NIS` collapsed to `ILS`. */
  function SelectCurrency(txn: Txn): (code: string)
    ensures txn.originalCurrency == "NIS" ==> code == "ILS"
    ensures code != "NIS"
    ensures txn.originalCurrency != "NIS" ==> code == txn.originalCurrency
  {
    if txn.originalCurrency == "NIS" then "ILS" else txn.originalCurrency
  }

  /** Selecting the currency of a transaction already carrying its selected currency changes nothing. */
  lemma SelectCurrencyIdempotent(txn: Txn)
    ensures SelectCurrency(txn.(originalCurrency := SelectCurrency(txn))) == SelectCurrency(txn)
  {
  }

  /** A transaction the normaliser has to convert. */
  predicate IsForeign(txn: Txn)
  {
    SelectCurrency(txn) != LOCAL_CURRENCY
  }

  /** The filter-then-map step of `getDates`: the rate key of every foreign transaction, in order. */
  function ForeignDays(txns: seq<Txn>): (keys: seq<string>)
    ensures |keys| <= |txns|
    ensures forall t :: t in txns && IsForeign(t) ==> AsRateDate(t.date) in keys
    ensures forall k :: k in keys ==> exists t :: t in txns && IsForeign(t) && AsRateDate(t.date) == k
  {
    if |txns| == 0 then []
    else
      var rest := ForeignDays(txns[1..]);
      assert forall t :: t in txns <==> t == txns[0] || t in txns[1..];
      if IsForeign(txns[0]) then [AsRateDate(txns[0].date)] + rest else rest
  }

  /** A single transaction contributes its rate key exactly when it is foreign. */
  lemma ForeignDaysSingleton(t: Txn)
    ensures ForeignDays([t]) == (if IsForeign(t) then [AsRateDate(t.date)] else [])
  {
    assert [t][1..] == [];
  }

  /** The rate keys of a concatenation are the concatenated rate keys, so order and multiplicity follow the input. */
  lemma {:induction false} ForeignDaysAppend(s: seq<Txn>, u: seq<Txn>)
    ensures ForeignDays(s + u) == ForeignDays(s) + ForeignDays(u)
  {
    if |s| == 0 {
      assert s + u == u;
    } else {
      assert (s + u)[0] == s[0];
      assert (s + u)[1..] == s[1..] + u;
      ForeignDaysAppend(s[1..], u);
    }
  }

  /**
   * `getDates`: the distinct rate keys of all foreign transactions of all
   * accounts, in the order they first appear.
   */
  function GetDates(accounts: seq<Account>): (keys: seq<string>)
    ensures NoDuplicates(keys)
    ensures forall key :: key in keys <==>
              exists i, t :: 0 <= i < |accounts| && t in accounts[i].txns && IsForeign(t) && AsRateDate(t.date) == key
  {
    var days := ForeignDays(AllTxns(accounts));
    var keys := Uniq(days);
    forall key ensures key in keys <==>
             exists i, t :: 0 <= i < |accounts| && t in accounts[i].txns && IsForeign(t) && AsRateDate(t.date) == key {
      assert key in keys <==> key in days;
      ForeignDaysMembership(accounts, key);
    }
    keys
  }

  /** A key is among the foreign days exactly when some foreign transaction of some account falls on that day. */
  lemma ForeignDaysMembership(accounts: seq<Account>, key: string)
    ensures key in ForeignDays(AllTxns(accounts)) <==>
            exists i, t :: 0 <= i < |accounts| && t in accounts[i].txns && IsForeign(t) && AsRateDate(t.date) == key
  {
    var days := ForeignDays(AllTxns(accounts));
    if key in days {
      var t :| t in AllTxns(accounts) && IsForeign(t) && AsRateDate(t.date) == key;
      var i :| 0 <= i < |accounts| && t in accounts[i].txns;
    }
    if exists i, t :: 0 <= i < |accounts| && t in accounts[i].txns && IsForeign(t) && AsRateDate(t.date) == key {
      var i, t :| 0 <= i < |accounts| && t in accounts[i].txns && IsForeign(t) && AsRateDate(t.date) == key;
      assert t in AllTxns(accounts);
    }
  }

  /** The requested keys follow the first appearance of each day among the foreign transactions. */
  lemma GetDatesOrder(accounts: seq<Account>)
    ensures InFirstOccurrenceOrder(GetDates(accounts), ForeignDays(AllTxns(accounts)))
  {
    UniqKeepsFirstOccurrenceOrder(ForeignDays(AllTxns(accounts)));
  }

  /**
   * `createConvertor(rate, from, to)(amount)`, run against the `fx` singleton in state `s`.
   * Falsy amounts become `null` without touching `rate` or `fx`; otherwise `fx` is
   * loaded from the table, the amount converted and rounded to cents, and `fx` reset.
   * A throwing `fx.convert` skips the reset.
   */
  function Convertor(s: FxState, rate: Option<RateTable>, from: string, to: string, amount: Amount): (c: Conversion)
    ensures !Truthy(amount) ==> c == Conversion(Success(Null), s)
    ensures Truthy(amount) && rate.None? ==> c == Conversion(Failure(NoRateTable), s)
    ensures Truthy(amount) && rate.Some? ==>
              (c.value.Success? <==> CanConvert(rate.value, from, to))
    ensures Truthy(amount) && rate.Some? && c.value.Failure? ==> c == Conversion(Failure(FxError), Load(rate.value))
    ensures Truthy(amount) && rate.Some? && c.value.Success? ==>
              CanConvert(rate.value, from, to)
              && c.value.value == Num(Round2(Triangulate(rate.value, amount.value, from, to)))
              && c.after == Reset
  {
    if !Truthy(amount) then Conversion(Success(Null), s)
    else if rate.None? then Conversion(Failure(NoRateTable), s)
    else
      var loaded := Load(rate.value);
      var converted := FxConvert(loaded, amount, from, to);
      if converted.Failure? then Conversion(Failure(converted.error), loaded)
      else
        FxConvertTriangulates(rate.value, amount.value, from, to);
        Conversion(Success(RoundAmount(converted.value)), Reset)
  }

  /** The convertor's value depends only on its arguments, never on what `fx` held before. */
  lemma ConvertorIgnoresPriorState(s1: FxState, s2: FxState, rate: Option<RateTable>, from: string, to: string, amount: Amount)
    ensures Convertor(s1, rate, from, to, amount).value == Convertor(s2, rate, from, to, amount).value
  {
  }

  /** A successful conversion always leaves `fx` reset to null. */
  lemma ConvertorResetsOnSuccess(s: FxState, table: RateTable, from: string, to: string, amount: Amount)
    requires Truthy(amount) && CanConvert(table, from, to)
    ensures Convertor(s, Some(table), from, to, amount).value.Success?
    ensures Convertor(s, Some(table), from, to, amount).after == Reset
  {
  }

  /** The convertor's value, which by ConvertorIgnoresPriorState is the same for any prior `fx` state. */
  function ConvertAmount(rate: Option<RateTable>, from: string, to: string, amount: Amount): Result<Amount, ConvError>
  {
    Convertor(Reset, rate, from, to, amount).value
  }

  /**
   * The convertor maps a zero or `null` amount to `null` even without a rate table,
   * where currency.js's `convert` turns it into 0 (or throws without a table).
   */
  lemma ConvertorGuardsFalsyAmounts(s: FxState, table: RateTable, from: string, to: string)
    requires CanConvert(table, from, to)
    ensures ConvertAmount(Some(table), from, to, Num(0.0)) == Success(Null)
    ensures Currency.Convert(s, Num(0.0), Some(table), from, to).value == Success(Num(0.0))
    ensures ConvertAmount(None, from, to, Null) == Success(Null)
    ensures Currency.Convert(s, Null, None, from, to).value == Failure(NoRateTable)
  {
    Currency.ConvertHasNoFalsyGuard(s, table, from, to);
  }

  /** A converted amount is `null` or a whole number of cents. */
  lemma ConvertAmountInCents(rate: Option<RateTable>, from: string, to: string, amount: Amount)
    requires ConvertAmount(rate, from, to, amount).Success?
    ensures var v := ConvertAmount(rate, from, to, amount).value;
            v == Null || (v.Num? && IsCents(v.value))
  {
  }

  /** `prepareTxn`: the rewrite of one transaction against the rate tables keyed by day. */
  function PrepareTxn(txn: Txn, rates: map<string, RateTable>): (r: Result<Txn, ConvError>)
    // local currency: nothing changes but meta.converted, which becomes false
    ensures !IsForeign(txn) ==>
              && r.Success?
              && SameExceptMeta(txn, r.value)
              && r.value.meta.converted == Some(false)
              && r.value.meta.original == txn.meta.original
              && r.value.meta.other == txn.meta.other
    // foreign currency: it fails exactly when a truthy amount has no usable rate
    ensures r.Failure? <==>
              && IsForeign(txn)
              && (Truthy(txn.chargedAmount) || Truthy(txn.originalAmount))
              && !(AsRateDate(txn.date) in rates && CanConvert(rates[AsRateDate(txn.date)], SelectCurrency(txn), LOCAL_CURRENCY))
    ensures r.Failure? ==> r.error == (if AsRateDate(txn.date) in rates then FxError else NoRateTable)
    // foreign currency: amounts converted, snapshot taken, nothing else changes
    ensures IsForeign(txn) && r.Success? ==>
              && SameExceptAmountsAndMeta(txn, r.value)
              && r.value.meta.converted == Some(true)
              && r.value.meta.original == Some(Snapshot(txn.originalCurrency, txn.chargedAmount, txn.originalAmount))
              && r.value.meta.other == txn.meta.other
              && (!Truthy(txn.chargedAmount) ==> r.value.chargedAmount == Null)
              && (!Truthy(txn.originalAmount) ==> r.value.originalAmount == Null)
    ensures IsForeign(txn) && r.Success? && Truthy(txn.chargedAmount) ==>
              var table := rates[AsRateDate(txn.date)];
              && CanConvert(table, SelectCurrency(txn), LOCAL_CURRENCY)
              && r.value.chargedAmount
                 == Num(Round2(Triangulate(table, txn.chargedAmount.value, SelectCurrency(txn), LOCAL_CURRENCY)))
    ensures IsForeign(txn) && r.Success? && Truthy(txn.originalAmount) ==>
              var table := rates[AsRateDate(txn.date)];
              && CanConvert(table, SelectCurrency(txn), LOCAL_CURRENCY)
              && r.value.originalAmount
                 == Num(Round2(Triangulate(table, txn.originalAmount.value, SelectCurrency(txn), LOCAL_CURRENCY)))
  {
    var currency := SelectCurrency(txn);
    if currency == LOCAL_CURRENCY then
      Success(txn.(meta := txn.meta.(converted := Some(false))))
    else
      var rate := Lookup(rates, AsRateDate(txn.date));
      var charged := ConvertAmount(rate, currency, LOCAL_CURRENCY, txn.chargedAmount);
      if charged.Failure? then Failure(charged.error)
      else
        var original := ConvertAmount(rate, currency, LOCAL_CURRENCY, txn.originalAmount);
        if original.Failure? then Failure(original.error)
        else
          Success(txn.(
            chargedAmount := charged.value,
            originalAmount := original.value,
            meta := txn.meta.(
              converted := Some(true),
              original := Some(Snapshot(txn.originalCurrency, txn.chargedAmount, txn.originalAmount)))))
  }

  /** Undoes `prepareTxn` from the audit snapshot alone. */
  function Restore(txn: Txn): Txn
  {
    match txn.meta.original
    case Some(snap) =>
      if txn.meta.converted == Some(true) then
        txn.(originalCurrency := snap.originalCurrency,
             chargedAmount := snap.chargedAmount,
             originalAmount := snap.originalAmount,
             meta := txn.meta.(converted := None, original := None))
      else txn.(meta := txn.meta.(converted := None))
    case None => txn.(meta := txn.meta.(converted := None))
  }

  /** The audit snapshot reproduces the pre-conversion transaction exactly. */
  lemma PrepareTxnReversible(txn: Txn, rates: map<string, RateTable>)
    requires txn.meta.converted.None? && txn.meta.original.None?
    requires PrepareTxn(txn, rates).Success?
    ensures Restore(PrepareTxn(txn, rates).value) == txn
  {
  }

  /** `account.txns.map(txn => prepareTxn(txn, rates))`: the first throwing transaction aborts the map. */
  function PrepareAll(txns: seq<Txn>, rates: map<string, RateTable>): (r: Result<seq<Txn>, ConvError>)
    ensures r.Success? <==> forall j :: 0 <= j < |txns| ==> PrepareTxn(txns[j], rates).Success?
    ensures r.Success? ==>
              && |r.value| == |txns|
              && forall j :: 0 <= j < |txns| ==> r.value[j] == PrepareTxn(txns[j], rates).value
    ensures r.Failure? ==>
              exists k :: 0 <= k < |txns| && PrepareTxn(txns[k], rates).Failure?
                && r.error == PrepareTxn(txns[k], rates).error
                && forall j :: 0 <= j < k ==> PrepareTxn(txns[j], rates).Success?
  {
    MapResult((t: Txn) => PrepareTxn(t, rates), txns)
  }

  /**
   * The per-account map of `convert`: every account keeps its place and number,
   * every transaction its place within the account.
   */
  function ConvertAccounts(accounts: seq<Account>, rates: map<string, RateTable>): (r: Result<seq<Account>, ConvError>)
    ensures r.Success? <==>
              forall i, j :: 0 <= i < |accounts| && 0 <= j < |accounts[i].txns| ==>
                PrepareTxn(accounts[i].txns[j], rates).Success?
    ensures r.Success? ==>
              && |r.value| == |accounts|
              && forall i :: 0 <= i < |accounts| ==>
                   && r.value[i].accountNumber == accounts[i].accountNumber
                   && |r.value[i].txns| == |accounts[i].txns|
                   && forall j :: 0 <= j < |accounts[i].txns| ==>
                        r.value[i].txns[j] == PrepareTxn(accounts[i].txns[j], rates).value
  {
    if |accounts| == 0 then Success([])
    else
      var head := PrepareAll(accounts[0].txns, rates);
      if head.Failure? then Failure(head.error)
      else
        var tail := ConvertAccounts(accounts[1..], rates);
        assert forall i :: 1 <= i < |accounts| ==> accounts[i] == accounts[1..][i - 1];
        if tail.Failure? then Failure(tail.error)
        else Success([accounts[0].(txns := head.value)] + tail.value)
  }

  /**
   * Transaction `j` of account `i` is the first to fail, accounts taken in
   * order and transactions in order within each account.
   */
  ghost predicate FailsFirstAt(accounts: seq<Account>, rates: map<string, RateTable>, i: int, j: int)
  {
    && 0 <= i < |accounts| && 0 <= j < |accounts[i].txns|
    && PrepareTxn(accounts[i].txns[j], rates).Failure?
    && (forall i', j' :: 0 <= i' < i && 0 <= j' < |accounts[i'].txns| ==> PrepareTxn(accounts[i'].txns[j'], rates).Success?)
    && (forall j' :: 0 <= j' < j ==> PrepareTxn(accounts[i].txns[j'], rates).Success?)
  }

  /** A failing conversion reports the error of the first failing transaction. */
  lemma {:induction false} ConvertAccountsFirstFailure(accounts: seq<Account>, rates: map<string, RateTable>)
    ensures ConvertAccounts(accounts, rates).Failure? ==>
              exists i, j :: FailsFirstAt(accounts, rates, i, j)
                && ConvertAccounts(accounts, rates).error == PrepareTxn(accounts[i].txns[j], rates).error
  {
    if ConvertAccounts(accounts, rates).Failure? {
      var head := PrepareAll(accounts[0].txns, rates);
      if head.Failure? {
        var k :| 0 <= k < |accounts[0].txns| && PrepareTxn(accounts[0].txns[k], rates).Failure?
                 && head.error == PrepareTxn(accounts[0].txns[k], rates).error
                 && forall j :: 0 <= j < k ==> PrepareTxn(accounts[0].txns[j], rates).Success?;
        assert FailsFirstAt(accounts, rates, 0, k);
      } else {
        var tail := accounts[1..];
        ConvertAccountsFirstFailure(tail, rates);
        var i, j :| FailsFirstAt(tail, rates, i, j) && ConvertAccounts(tail, rates).error == PrepareTxn(tail[i].txns[j], rates).error;
        FailsFirstAtShift(accounts, rates, i, j);
      }
    }
  }

  /** A first failure in the later accounts stays first when an account that succeeds is put in front. */
  lemma FailsFirstAtShift(accounts: seq<Account>, rates: map<string, RateTable>, i: int, j: int)
    requires |accounts| > 0 && PrepareAll(accounts[0].txns, rates).Success?
    requires FailsFirstAt(accounts[1..], rates, i, j)
    ensures FailsFirstAt(accounts, rates, i + 1, j)
  {
    var tail := accounts[1..];
    assert accounts[i + 1] == tail[i];
    forall i', j' | 0 <= i' < i + 1 && 0 <= j' < |accounts[i'].txns|
      ensures PrepareTxn(accounts[i'].txns[j'], rates).Success?
    {
      if i' > 0 {
        assert accounts[i'] == tail[i' - 1];
      }
    }
  }

  /**
   * With a rate table for every key `getDates` requests, each quoting the
   * currencies involved, the whole conversion succeeds: no lookup ever misses.
   */
  lemma RequestedDatesSuffice(accounts: seq<Account>, rates: map<string, RateTable>)
    requires forall key :: key in GetDates(accounts) ==> key in rates
    requires forall i, j :: 0 <= i < |accounts| && 0 <= j < |accounts[i].txns| && IsForeign(accounts[i].txns[j])
               && AsRateDate(accounts[i].txns[j].date) in rates
               ==> CanConvert(rates[AsRateDate(accounts[i].txns[j].date)], SelectCurrency(accounts[i].txns[j]), LOCAL_CURRENCY)
    ensures ConvertAccounts(accounts, rates).Success?
  {
    forall i, j | 0 <= i < |accounts| && 0 <= j < |accounts[i].txns|
      ensures PrepareTxn(accounts[i].txns[j], rates).Success?
    {
      var t := accounts[i].txns[j];
      if IsForeign(t) {
        assert AsRateDate(t.date) in GetDates(accounts);
      }
    }
  }
}
