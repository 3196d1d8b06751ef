/**
 * The inline pipeline of `src/scrape.js`: its own `NIS` to `ILS` pass over the
 * scraped accounts, `extractDates`, and the CSV row built for each transaction.
 */
module Scrape {
  import opened Wrappers
  import opened Sequences
  import opened Calendar
  import opened Money
  import opened Transactions
  import Convert
  import Currency

  /** `normalizeCurrency`: the alias `NIS` becomes `ILS`; every other code is kept. */
  function NormalizeCurrency(code: string): (r: string)
    ensures code == "NIS" ==> r == "ILS"
    ensures r != "NIS"
    ensures code != "NIS" ==> r == code
  {
    if code == "NIS" then "ILS" else code
  }

  /** scrape.js's inline alias collapse agrees with convert.js's `selectCurrency`. */
  lemma NormalizeCurrencyAgreesWithSelect(txn: Txn)
    ensures NormalizeCurrency(txn.originalCurrency) == Convert.SelectCurrency(txn)
    ensures NormalizeCurrency(NormalizeCurrency(txn.originalCurrency)) == NormalizeCurrency(txn.originalCurrency)
  {
  }

  function NormalizeTxn(txn: Txn): Txn
  {
    txn.(originalCurrency := NormalizeCurrency(txn.originalCurrency))
  }

  /** The account pass: only `originalCurrency` of each transaction is rewritten. */
  function NormalizeAccounts(accounts: seq<Account>): (r: seq<Account>)
    ensures |r| == |accounts|
    ensures forall i :: 0 <= i < |accounts| ==>
              && r[i].accountNumber == accounts[i].accountNumber
              && |r[i].txns| == |accounts[i].txns|
              && forall j :: 0 <= j < |accounts[i].txns| ==>
                   && SameExceptCurrency(accounts[i].txns[j], r[i].txns[j])
                   && r[i].txns[j].originalCurrency == Convert.SelectCurrency(accounts[i].txns[j])
  {
    seq(|accounts|, i requires 0 <= i < |accounts| =>
      accounts[i].(txns := seq(|accounts[i].txns|, j requires 0 <= j < |accounts[i].txns| => NormalizeTxn(accounts[i].txns[j]))))
  }

  /** Normalising twice is normalising once. */
  lemma NormalizeAccountsIdempotent(accounts: seq<Account>)
    ensures NormalizeAccounts(NormalizeAccounts(accounts)) == NormalizeAccounts(accounts)
  {
    var once := NormalizeAccounts(accounts);
    var twice := NormalizeAccounts(once);
    forall i | 0 <= i < |accounts| ensures twice[i] == once[i] {
      assert twice[i].txns == once[i].txns;
    }
  }

  /** After the pass, the row builder's `=== 'ILS'` test is convert.js's local-currency test. */
  lemma NormalizedLocalTest(txn: Txn)
    ensures NormalizeTxn(txn).originalCurrency == "ILS" <==> !Convert.IsForeign(txn)
  {
  }

  /** reject-by-currency then map-to-date: the raw date of every transaction not in `ILS`, in order. */
  function RawForeignDates(txns: seq<Txn>): (dates: seq<DateTime>)
    ensures |dates| <= |txns|
    ensures forall t :: t in txns && t.originalCurrency != "ILS" ==> t.date in dates
    ensures forall d :: d in dates ==> exists t :: t in txns && t.originalCurrency != "ILS" && t.date == d
  {
    if |txns| == 0 then []
    else
      var rest := RawForeignDates(txns[1..]);
      assert forall t :: t in txns <==> t == txns[0] || t in txns[1..];
      if txns[0].originalCurrency != "ILS" then [txns[0].date] + rest else rest
  }

  /** A single transaction contributes its date exactly when it is not in `ILS`. */
  lemma RawForeignDatesSingleton(t: Txn)
    ensures RawForeignDates([t]) == (if t.originalCurrency != "ILS" then [t.date] else [])
  {
    assert [t][1..] == [];
  }

  /** The dates of a concatenation are the concatenated dates, so order and multiplicity follow the input. */
  lemma {:induction false} RawForeignDatesAppend(s: seq<Txn>, u: seq<Txn>)
    ensures RawForeignDates(s + u) == RawForeignDates(s) + RawForeignDates(u)
  {
    if |s| == 0 {
      assert s + u == u;
    } else {
      assert (s + u)[0] == s[0];
      assert (s + u)[1..] == s[1..] + u;
      RawForeignDatesAppend(s[1..], u);
    }
  }

  /** `extractDates`: the distinct raw dates of all non-`ILS` transactions, in first-occurrence order. */
  function ExtractDates(accounts: seq<Account>): (dates: seq<DateTime>)
    ensures NoDuplicates(dates)
    ensures forall d :: d in dates <==>
              exists i, j :: 0 <= i < |accounts| && 0 <= j < |accounts[i].txns|
                && accounts[i].txns[j].originalCurrency != "ILS" && accounts[i].txns[j].date == d
  {
    var raw := RawForeignDates(AllTxns(accounts));
    var dates := Uniq(raw);
    forall d ensures d in dates <==>
             exists i, j :: 0 <= i < |accounts| && 0 <= j < |accounts[i].txns|
               && accounts[i].txns[j].originalCurrency != "ILS" && accounts[i].txns[j].date == d {
      assert d in dates <==> d in raw;
      RawForeignDatesMembership(accounts, d);
    }
    dates
  }

  /** A date is among the raw foreign dates exactly when some non-`ILS` transaction of some account carries it. */
  lemma RawForeignDatesMembership(accounts: seq<Account>, d: DateTime)
    ensures d in RawForeignDates(AllTxns(accounts)) <==>
            exists i, j :: 0 <= i < |accounts| && 0 <= j < |accounts[i].txns|
              && accounts[i].txns[j].originalCurrency != "ILS" && accounts[i].txns[j].date == d
  {
    if d in RawForeignDates(AllTxns(accounts)) {
      var t :| t in AllTxns(accounts) && t.originalCurrency != "ILS" && t.date == d;
      var i :| 0 <= i < |accounts| && t in accounts[i].txns;
      var j :| 0 <= j < |accounts[i].txns| && accounts[i].txns[j] == t;
    }
    if exists i, j :: 0 <= i < |accounts| && 0 <= j < |accounts[i].txns|
         && accounts[i].txns[j].originalCurrency != "ILS" && accounts[i].txns[j].date == d {
      var i, j :| 0 <= i < |accounts| && 0 <= j < |accounts[i].txns|
                  && accounts[i].txns[j].originalCurrency != "ILS" && accounts[i].txns[j].date == d;
      assert accounts[i].txns[j] in AllTxns(accounts);
    }
  }

  /** The extracted dates follow the first appearance of each date. */
  lemma ExtractDatesOrder(accounts: seq<Account>)
    ensures InFirstOccurrenceOrder(ExtractDates(accounts), RawForeignDates(AllTxns(accounts)))
  {
    UniqKeepsFirstOccurrenceOrder(RawForeignDates(AllTxns(accounts)));
  }

  /**
   * Both variants request the same days: after the alias pass, the day keys of
   * scrape.js's extracted dates are exactly convert.js's `getDates`.
   */
  lemma ExtractDatesCoverGetDates(accounts: seq<Account>, key: string)
    ensures key in Convert.GetDates(accounts) <==>
            exists d :: d in ExtractDates(NormalizeAccounts(accounts)) && Convert.AsRateDate(d) == key
  {
    RequestedDayIsExtracted(accounts, key);
    if exists d :: d in ExtractDates(NormalizeAccounts(accounts)) && Convert.AsRateDate(d) == key {
      var d :| d in ExtractDates(NormalizeAccounts(accounts)) && Convert.AsRateDate(d) == key;
      ExtractedDayIsRequested(accounts, d);
    }
  }

  /** Every key `getDates` requests is the day of some date scrape.js extracts after the alias pass. */
  lemma RequestedDayIsExtracted(accounts: seq<Account>, key: string)
    ensures key in Convert.GetDates(accounts) ==>
            exists d :: d in ExtractDates(NormalizeAccounts(accounts)) && Convert.AsRateDate(d) == key
  {
    if key in Convert.GetDates(accounts) {
      var normal := NormalizeAccounts(accounts);
      var i, t :| 0 <= i < |accounts| && t in accounts[i].txns && Convert.IsForeign(t) && Convert.AsRateDate(t.date) == key;
      var j :| 0 <= j < |accounts[i].txns| && accounts[i].txns[j] == t;
      assert normal[i].txns[j].originalCurrency != "ILS" && normal[i].txns[j].date == t.date;
      assert t.date in ExtractDates(normal);
    }
  }

  /** The day of every date scrape.js extracts after the alias pass is a key `getDates` requests. */
  lemma ExtractedDayIsRequested(accounts: seq<Account>, d: DateTime)
    ensures d in ExtractDates(NormalizeAccounts(accounts)) ==> Convert.AsRateDate(d) in Convert.GetDates(accounts)
  {
    if d in ExtractDates(NormalizeAccounts(accounts)) {
      var normal := NormalizeAccounts(accounts);
      var i, j :| 0 <= i < |normal| && 0 <= j < |normal[i].txns|
                  && normal[i].txns[j].originalCurrency != "ILS" && normal[i].txns[j].date == d;
      var t := accounts[i].txns[j];
      assert t in accounts[i].txns && Convert.IsForeign(t) && Convert.AsRateDate(t.date) == Convert.AsRateDate(d);
    }
  }


  /**
   * The amount a row reports: `originalAmount` for an installment purchase when
   * installments are combined, `chargedAmount` otherwise.
   */
  function Inflow(txn: Txn, combineInstallments: bool): (a: Amount)
    ensures txn.kind == "installments" && combineInstallments ==> a == txn.originalAmount
    ensures txn.kind != "installments" || !combineInstallments ==> a == txn.chargedAmount
  {
    if txn.kind != "installments" || !combineInstallments then txn.chargedAmount else txn.originalAmount
  }

  /** One CSV row: Date, Payee, Inflow, Installment, Total, Memo. */
  datatype Row = Row(date: string, payee: string, inflow: Amount, installment: Option<int>, total: Option<int>, memo: string)

  /**
   * The row for one transaction. Foreign amounts go through currency.js's `convert`
   * against the table stored under the transaction's raw date; the `fx` state it
   * starts from does not matter (Currency.ConvertIgnoresPriorState). `format` is
   * currency.js's `format`, a wrapper around a formatting library.
   */
  function BuildRow(txn: Txn, combineInstallments: bool, rates: map<DateTime, RateTable>, format: Amount -> string): (r: Result<Row, ConvError>)
    ensures r.Success? ==>
              && r.value.date == SlashDay(txn.date)
              && r.value.payee == txn.description
              && r.value.installment == (if txn.installments.Some? then Some(txn.installments.value.number) else None)
              && r.value.total == (if txn.installments.Some? then Some(txn.installments.value.total) else None)
    ensures txn.originalCurrency == "ILS" ==>
              r.Success? && r.value.inflow == Inflow(txn, combineInstallments) && r.value.memo == ""
    ensures txn.originalCurrency != "ILS" ==>
              (r.Success? <==> && txn.date in rates
                               && !Inflow(txn, combineInstallments).Null?
                               && CanConvert(rates[txn.date], txn.originalCurrency, "ILS"))
    ensures txn.originalCurrency != "ILS" && r.Failure? ==>
              r.error == (if txn.date !in rates then NoRateTable
                          else if Inflow(txn, combineInstallments).Null? then NullAmount
                          else FxError)
    ensures txn.originalCurrency != "ILS" && r.Success? ==>
              && r.value.memo == format(Inflow(txn, combineInstallments))
              && (ToNumber(Inflow(txn, combineInstallments)).NaN? ==> r.value.inflow == NaN)
              && (ToNumber(Inflow(txn, combineInstallments)).Num? ==>
                    r.value.inflow == Num(Round2(Triangulate(rates[txn.date], ToNumber(Inflow(txn, combineInstallments)).value,
                                                             txn.originalCurrency, "ILS"))))
  {
    var inflow := Inflow(txn, combineInstallments);
    var isLocal := txn.originalCurrency == "ILS";
    var amount :=
      if isLocal then Success(inflow)
      else Currency.Convert(Reset, inflow, Lookup(rates, txn.date), txn.originalCurrency, "ILS").value;
    if amount.Failure? then Failure(amount.error)
    else
      Success(Row(
        SlashDay(txn.date),
        txn.description,
        amount.value,
        if txn.installments.Some? then Some(txn.installments.value.number) else None,
        if txn.installments.Some? then Some(txn.installments.value.total) else None,
        if isLocal then "" else format(inflow)))
  }

  /** The rows of one account's CSV: one per transaction, in order. */
  function BuildRows(txns: seq<Txn>, combineInstallments: bool, rates: map<DateTime, RateTable>, format: Amount -> string)
    : (r: Result<seq<Row>, ConvError>)
    ensures r.Success? <==> forall j :: 0 <= j < |txns| ==> BuildRow(txns[j], combineInstallments, rates, format).Success?
    ensures r.Success? ==>
              && |r.value| == |txns|
              && forall j :: 0 <= j < |txns| ==>
                   && r.value[j] == BuildRow(txns[j], combineInstallments, rates, format).value
                   && r.value[j].date == SlashDay(txns[j].date)
    ensures r.Failure? ==>
              exists k :: 0 <= k < |txns| && BuildRow(txns[k], combineInstallments, rates, format).Failure?
                && r.error == BuildRow(txns[k], combineInstallments, rates, format).error
                && forall j :: 0 <= j < k ==> BuildRow(txns[j], combineInstallments, rates, format).Success?
  {
    MapResult((t: Txn) => BuildRow(t, combineInstallments, rates, format), txns)
  }

  /** Two rows carry the same Date cell exactly when their transactions fall on the same day. */
  lemma RowDateIdentifiesDay(a: Txn, b: Txn, combineInstallments: bool, rates: map<DateTime, RateTable>, format: Amount -> string)
    requires BuildRow(a, combineInstallments, rates, format).Success?
    requires BuildRow(b, combineInstallments, rates, format).Success?
    ensures BuildRow(a, combineInstallments, rates, format).value.date == BuildRow(b, combineInstallments, rates, format).value.date
            <==> SameDay(a.date, b.date)
  {
    SlashDayIdentifiesDay(a.date, b.date);
  }
}
