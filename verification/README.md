# israeli-ynab-updater: currency normalisation, in Dafny

This project models the currency core of israeli-ynab-updater. The tool scrapes Israeli bank and
credit-card transactions and turns foreign-currency transactions into the local currency
(`ILS`) with historical daily exchange rates. The model covers:

- the transaction normaliser of `src/helpers/convert.js`:
  - the `NIS` → `ILS` alias collapse;
  - the `YYYY-MM-DD` rate key;
  - the days that need a rate table;
  - the falsy-guarded, cent-rounding convertor;
  - the rewrite of each transaction with its `meta.converted` flag and audit snapshot;
  - the per-account map;
- the inline pipeline of `src/scrape.js`: its own alias pass, `extractDates`, and the CSV row
  built for each transaction;
- the second converter in `src/helpers/currency.js`;
- the in-memory `get`/`put` store of `src/helpers/rates.js`;
- the validator and question builder of `src/save-credentials.js`.

Everything is written as immutable datatypes and pure functions:

- `wrappers.dfy` (`Wrappers`): `Option` for `undefined` reads and `Result` for thrown errors;
  `MapResult` is `Array.prototype.map` with a callback that may throw.
- `sequences.dfy` (`Sequences`): lodash `uniq`, with no duplicates and first-occurrence order.
- `calendar.dfy` (`Calendar`): local timestamps; the `YYYY-MM-DD` and `DD/MM/YYYY` renderings,
  each with a parser that reads it back.
- `money.dfy` (`Money`):
  - JavaScript amount values (`null`, `undefined`, `NaN`, number) and their truthiness;
  - lodash `round(x, 2)` as `Floor(100x + 1/2) / 100`;
  - rate tables;
  - the money.js singleton `fx` as an explicit `FxState` that each conversion reads and leaves
    behind.
- `transactions.dfy` (`Transactions`): `Txn`, `Meta`, `Snapshot`, `Account`, and the flattening of
  accounts into transactions.
- `convert.dfy` (`Convert`), `currency.dfy` (`Currency`), `scrape.dfy` (`Scrape`), `rates.dfy`
  (`RateStore`), `credentials.dfy` (`Credentials`): one module per source file.

Assumptions about code outside the repository files modelled here:

- `LOCAL_CURRENCY` is `"ILS"` and `PASSWORD_FIELD` is `"password"`. `src/definitions.js` is not
  part of this model; `ILS` is the code `src/scrape.js` hard-codes for the local currency.
- The money library is not part of this model. `fx.convert` is modelled the way money.js
  computes it:
  - `getRate` first treats the base currency as rate 1;
  - it throws when the rate of `to` or of `from` is missing or zero;
  - otherwise it takes one of three branches, and each yields `rates[to] / rates[from]`;
  - the numeric value of the amount is then multiplied by that rate;
  - before any of this, `fx.convert` tests `typeof val === 'object' && val.length` to convert
    arrays element-wise, so a `null` amount throws a `TypeError` there.

  `GetRateIsQuotient` and `FxConvertTriangulates` prove that this is triangulation through the
  table's base currency, `amount / rates[from] * rates[to]`.
- Timestamps are already resolved to the local calendar day, as `moment(date)` does.

Behaviours of the code worth knowing, which the model keeps:

- For a local-currency transaction, `prepareTxn` spreads the incoming `meta`. A `meta.original`
  already present is therefore kept next to `converted = false` (see `Convert.PrepareTxn`).
- The conversion is not free of global state. Both converters write `fx.base` and `fx.rates`.
  `createConvertor` resets them only when `fx.convert` returns, so a throw leaves `fx` loaded.
  `currency.js` never resets them. The model threads this state explicitly and proves that
  neither converter's result depends on the state it starts from.
- `scrape.js` looks rate tables up by the transaction's raw date, not by the day key. The row
  builder's rate map is therefore keyed by `DateTime`, and `convert.js`'s map is keyed by the
  `YYYY-MM-DD` string.

## Model

| member | source | states |
|---|---|---|
| Convert.AsRateDate | src/helpers/convert.js:18-20 | the rate key is a 10-character string |
| Convert.AsRateDateIdentifiesDay | src/helpers/convert.js:18-20 | two timestamps get the same rate key if and only if they fall on the same calendar day; the time of day plays no part |
| Calendar.IsoDayRoundTrip | src/helpers/convert.js:19 | the `YYYY-MM-DD` key parses back to the year, month and day it was made from |
| Calendar.ParseDigitsRoundTrip | src/helpers/convert.js:19 | zero-padded digits parse back to the number whenever it fits in the width |
| Convert.SelectCurrency | src/helpers/convert.js:22-29 | `NIS` becomes `ILS`, the selected code is never `NIS`, and every code other than `NIS` is returned unchanged |
| Convert.SelectCurrencyIdempotent | src/helpers/convert.js:22-29 | selecting the currency again, once a transaction carries its selected currency, gives the same code |
| Transactions.AllTxns | src/helpers/convert.js:32 | a transaction is in the flattened list if and only if it belongs to one of the accounts |
| Transactions.AllTxnsSingleton | src/helpers/convert.js:32 | `flatMap(accounts, 'txns')` of no accounts is empty, and of one account is that account's transaction list |
| Transactions.AllTxnsAppend | src/helpers/convert.js:32 | flattening a concatenation of account lists is the concatenation of the two flattenings; with the singleton case this fixes the order and multiplicity of every transaction |
| Convert.ForeignDays | src/helpers/convert.js:33-35 | a key is in the list if and only if some foreign transaction's day has that key; the list is no longer than its input |
| Convert.ForeignDaysSingleton | src/helpers/convert.js:34-35 | the filter-then-map turns one transaction into its day key when it is foreign and into nothing otherwise |
| Convert.ForeignDaysAppend | src/helpers/convert.js:34-35 | the filter-then-map of a concatenation is the concatenation of the results, so order and multiplicity are those of the input |
| Sequences.Uniq | src/helpers/convert.js:33 | the result has no duplicates and holds exactly the input's elements |
| Sequences.UniqKeepsFirstOccurrenceOrder | src/helpers/convert.js:33 | the result lists the elements in the order they first appear in the input |
| Convert.ForeignDaysMembership | src/helpers/convert.js:32-35 | a key is among the foreign days of the flattened accounts if and only if some foreign transaction of some account falls on that day |
| Convert.GetDates | src/helpers/convert.js:31-38 | the requested day keys contain no duplicates, and a key is requested if and only if some transaction in some account has a selected currency other than the local one and falls on that day |
| Convert.GetDatesOrder | src/helpers/convert.js:33-35 | the requested keys follow the first appearance of each day among the foreign transactions |
| Money.Round2 | src/helpers/convert.js:56 | the rounded value is a whole number of cents within half a cent of the input, with ties going up |
| Money.Round2Unique | src/helpers/convert.js:56 | any whole-cent value in (x - 0.005, x + 0.005] equals the rounding of x |
| Money.Round2Idempotent | src/helpers/convert.js:56 | rounding an already rounded value changes nothing |
| Money.Round2Monotone | src/helpers/convert.js:56 | rounding preserves the order of two amounts |
| Money.RoundAmount | src/helpers/currency.js:14 | `round` keeps NaN as NaN and turns a number into whole cents within half a cent of it |
| Money.Truthy | src/helpers/convert.js:41 | an amount is falsy if and only if it is `null`, `undefined`, NaN or 0 |
| Money.ToNumber | src/helpers/currency.js:13 | coercion by `*` leaves a number unchanged, turns `null` into 0, and turns `undefined` and NaN into NaN |
| Money.GetRate | src/helpers/currency.js:13 | the rate lookup fails when `fx.rates` is unset, and otherwise succeeds if and only if both currencies have a non-zero rate |
| Money.GetRateIsQuotient | src/helpers/currency.js:13 | whichever branch is taken, the rate is rates[to] / rates[from] |
| Money.FxConvert | src/helpers/currency.js:13 | a `null` amount throws before any rate is read. For any other amount the conversion succeeds exactly when the rate lookup does, with the lookup's error otherwise; NaN and `undefined` give NaN and a number is multiplied by the rate |
| Money.Load | src/helpers/convert.js:47-48 | after the two assignments, `fx.base` is the table's base and `fx.rates` its rates |
| Money.FxConvertTriangulates | src/helpers/convert.js:47-50 | with a table loaded, converting is triangulation through its base, amount / rates[from] * rates[to] |
| Convert.Convertor | src/helpers/convert.js:40-57 | a falsy amount gives `null` and reads neither the table nor `fx`; a missing table throws; otherwise the result is the rounded triangulation, and `fx` is reset on success but left loaded on a throw |
| Convert.ConvertorIgnoresPriorState | src/helpers/convert.js:43-54 | the convertor's value never depends on what `fx` held before the call |
| Convert.ConvertorResetsOnSuccess | src/helpers/convert.js:52-54 | a truthy amount with a table quoting both currencies converts successfully, and `fx.base` and `fx.rates` are null again afterwards |
| Convert.ConvertAmountInCents | src/helpers/convert.js:41-56 | every converted amount is `null` or a whole number of cents |
| Convert.ConvertorGuardsFalsyAmounts | src/helpers/convert.js:40-41 | a zero or `null` amount becomes `null`, even without a table, whereas currency.js's convert turns it into 0, or throws when the table is missing |
| Convert.PrepareTxn | src/helpers/convert.js:59-84 | for a local transaction, only `meta.converted` changes, to false, and the other `meta` fields are kept. A foreign transaction fails exactly when a truthy amount has no usable rate table, with the error naming which. Otherwise `converted` becomes true and `meta.original` is exactly the prior currency and amounts. Falsy amounts become `null` and truthy ones become the rounded triangulation. No other field changes, and in particular `originalCurrency` does not |
| Convert.PrepareTxnReversible | src/helpers/convert.js:74-82 | for a transaction with no prior conversion metadata, the audit snapshot restores the original transaction exactly |
| Convert.PrepareAll | src/helpers/convert.js:97 | the map succeeds if and only if every transaction does; it keeps length and order, and on failure it reports the first failing transaction's error |
| Convert.ConvertAccounts | src/helpers/convert.js:96-99 | the result succeeds if and only if every transaction of every account does; it keeps the number and order of accounts, each account number, and the number and order of transactions, each one being its `prepareTxn` |
| Convert.ConvertAccountsFirstFailure | src/helpers/convert.js:96-99 | when the map throws, its error is that of the first transaction whose `prepareTxn` throws: every transaction of every earlier account, and every earlier transaction of the same account, succeeds |
| Convert.FailsFirstAtShift | src/helpers/convert.js:96 | a first failing transaction of the later accounts stays the first one when an account whose transactions all succeed is put in front |
| Convert.RequestedDatesSuffice | src/helpers/convert.js:66-68 | if every key `getDates` requests has a rate table and those tables quote the currencies involved, the conversion of all accounts succeeds |
| Currency.Convert | src/helpers/currency.js:9-15 | a missing table throws before `fx` is touched. Otherwise `fx` is left holding the table, and the call succeeds if and only if the amount is not `null` and both currencies are quoted; a `null` amount throws the `TypeError` of money.js's array test and an unquoted currency its `fx error`. NaN and `undefined` give NaN, and a numeric amount becomes its rounded triangulation |
| Currency.ConvertReturnsCents | src/helpers/currency.js:14 | every number returned is a whole number of cents |
| Currency.ConvertIgnoresPriorState | src/helpers/currency.js:10-13 | because the basis is overwritten first, the result depends only on amount, table, from and to |
| Currency.ConvertHasNoFalsyGuard | src/helpers/currency.js:9-15 | with a table quoting both currencies, falsy amounts reach `fx.convert` unguarded: 0 converts to 0 rather than `null`, `null` throws in `fx.convert`, and `undefined` converts to NaN |
| Currency.TriangulationExample | src/helpers/currency.js:13-14 | with a USD-based table, 100 USD and 90 EUR both come to 360.00 ILS |
| Scrape.NormalizeCurrency | src/scrape.js:72 | `NIS` becomes `ILS`, the result is never `NIS`, and every other code is kept |
| Scrape.NormalizeCurrencyAgreesWithSelect | src/scrape.js:72 | the inline alias collapse gives the same code as convert.js's `selectCurrency`, and applying it twice equals applying it once |
| Scrape.NormalizeAccounts | src/scrape.js:73-79 | the pass keeps the number and order of accounts and transactions, and the account numbers. Each transaction changes only in `originalCurrency`, which becomes its selected currency |
| Scrape.NormalizeAccountsIdempotent | src/scrape.js:73-79 | normalising twice is normalising once |
| Scrape.NormalizedLocalTest | src/scrape.js:99 | after the pass, the row builder's `=== 'ILS'` test holds exactly for transactions convert.js treats as local |
| Scrape.RawForeignDates | src/scrape.js:87-89 | a date is listed if and only if some transaction not in `ILS` carries it |
| Scrape.RawForeignDatesSingleton | src/scrape.js:88-89 | the reject-then-map turns one transaction into its date when its currency is not `ILS` and into nothing otherwise |
| Scrape.RawForeignDatesAppend | src/scrape.js:88-89 | the reject-then-map of a concatenation is the concatenation of the results, so order and multiplicity are those of the input |
| Scrape.RawForeignDatesMembership | src/scrape.js:87-89 | a date is among the raw foreign dates of the flattened accounts if and only if some non-`ILS` transaction of some account carries it |
| Scrape.ExtractDates | src/scrape.js:86-91 | the extracted dates contain no duplicates, and a date is extracted if and only if some transaction in some account has a currency other than `ILS` and carries that raw date |
| Scrape.ExtractDatesOrder | src/scrape.js:90 | the extracted dates are in first-occurrence order |
| Scrape.ExtractDatesCoverGetDates | src/scrape.js:86-91 | after the alias pass, the day keys of the extracted dates are exactly the keys convert.js's `getDates` requests |
| Scrape.RequestedDayIsExtracted | src/scrape.js:86-91 | every key `getDates` requests is the day of some date scrape.js extracts after the alias pass |
| Scrape.ExtractedDayIsRequested | src/scrape.js:86-91 | the day of every date scrape.js extracts after the alias pass is a key `getDates` requests |
| Scrape.Inflow | src/scrape.js:101-103 | the inflow is `originalAmount` when the transaction is an installment and installments are combined, and `chargedAmount` otherwise |
| Scrape.BuildRow | src/scrape.js:97-112 | Date is the day as `DD/MM/YYYY`, Payee is the description, and Installment and Total are the installment number and total, or `null`. A local row has the selected inflow and an empty Memo and never fails. A foreign row fails if and only if its date has no table, its inflow is `null`, or the table does not quote both currencies, and the error says which, in that order. Its Memo is the formatted inflow, and its Inflow is NaN for a NaN or `undefined` inflow and the rounded triangulation for a number |
| Scrape.BuildRows | src/scrape.js:97-113 | exactly one row per transaction, in the same order, each dated with its transaction's day. The map fails if and only if some row fails, and then with the error of the first failing row |
| Scrape.RowDateIdentifiesDay | src/scrape.js:106 | two rows carry the same Date cell if and only if their transactions fall on the same calendar day |
| Calendar.SlashDay | src/scrape.js:106 | the Date cell is ten characters with `/` after the day and after the month |
| Calendar.SlashDayRoundTrip | src/scrape.js:106 | the `DD/MM/YYYY` cell parses back to the year, month and day it was made from |
| RateStore.Open | src/helpers/rates.js:7 | the store starts from the map read from the cache path, with no save requested |
| RateStore.Get | src/helpers/rates.js:12-14 | `get` returns the table stored under the date, or nothing when the date is absent |
| RateStore.Put | src/helpers/rates.js:15-18 | after `put`, `get` of that date returns the value and every other date reads as before. The key set gains exactly that date, and one save request carrying the whole new map under the same cache path is appended |
| RateStore.PutSameValueKeepsMap | src/helpers/rates.js:16 | putting the value a date already holds leaves the map unchanged |
| RateStore.GetAfterRun | src/helpers/rates.js:11-18 | after any sequence of `get` and `put` calls, `get` returns the value last put under the date, or what the loaded map held if it was never put |
| RateStore.RunGrows | src/helpers/rates.js:11-18 | no key is ever removed and the cache path never changes; every `put`, and only a `put`, appends one save request naming the cache path, and the requests already recorded stay as recorded |
| RateStore.LastSaveIsCurrentMap | src/helpers/rates.js:15-18 | after any call sequence with a `put`, the last save requested holds the whole current map |
| Credentials.ValidateNonEmpty | src/save-credentials.js:8-13 | the input is accepted if and only if it is non-empty, and otherwise rejected with `<field> must be non empty` |
| Credentials.QuestionFor | src/save-credentials.js:29-34 | the question's name is the field and its message is `Enter value for <field>:`. Its type is `PASSWORD_FIELD` if and only if the field is `PASSWORD_FIELD`, and `input` otherwise. Its validator is `validateNonEmpty` bound to the field |
| Credentials.Questions | src/save-credentials.js:28-35 | one question per login field, in order, with the name, message and type rules above |
| Credentials.QuestionNamesDistinct | src/save-credentials.js:31 | distinct login fields give distinct answer keys |
| Credentials.QuestionValidates | src/save-credentials.js:33 | each question rejects exactly the empty answer, naming its own field |

## Left out

- Money.GetRate: money.js itself is not part of this model. Its `getRate`/`convert` are modelled from that library's documented behaviour. Its write of `rates[base] = 1` into the caller's table object is not modelled.
- Floating point: amounts and rates are reals. IEEE-754 rounding, `Infinity` and overflow are not modelled, and lodash `round` is exact half-up rounding on reals.
- Dates: `moment`'s time-zone handling is left out; timestamps arrive already on the local calendar. Years run 0–9999, and impossible days such as 31 February are not rejected.
- The driver of `convert` (src/helpers/convert.js:87-94) is left out. In the code, `rates` is used before its declaration and the `Promise.all` result is indexed by a date string. `Convert.ConvertAccounts` instead takes the rate tables as a map keyed by day.
- The rate client is left out: the `oxr` factory, `oxr.cache` fetching only missing dates, remote failures and concurrency (src/helpers/rates.js:5-9, 20). This is library code that the repository does not contain. Only the store map it calls is modelled.
- The 500 ms `debounce` of `save` and the file write (src/helpers/rates.js:3) are timing and I/O. Each `put` is modelled as one save request carrying the whole map. Which requests the debounce merges is not modelled.
- RateStore.RunGrows: a save request records the map by value as it stands at the `put`. The code passes the live `rates` object to a debounced write, so a write that runs later sees every `put` made since; only the last request's content, the current map (`RateStore.LastSaveIsCurrentMap`), is what the code would write.
- src/helpers/rates.js cannot load as written: `export await function` (line 5) is a syntax error, and `debounce`, `readJsonFile` and `writeJsonFile` (lines 3, 7) are never imported. The store is modelled from the bodies of `get` and `put` (lines 12-18) and the map `createClient` reads (line 7), as if those names were defined.
- RateStore.Open: reading the cache file is I/O. The loaded map is a parameter, and a missing or corrupt file is not modelled.
- src/scrape.js wiring is left out:
  - prompting, reading credentials, the scraper client and its progress callback (lines 14-69);
  - the rate service factory (81-84);
  - the unawaited `fetch` (94);
  - CSV serialisation and file writes (115-124).

  Also, `import * as currency` makes `currency.convert` undefined at line 108; the row builder uses the intended default export instead.
- `currency.format` (src/helpers/currency.js:5-7) wraps a formatting library. `Scrape.BuildRow` takes it as a function parameter.
- src/save-credentials.js prompting, credential encryption and file writes (lines 15-27, 36-72) are UI and I/O.
- Credentials.ValidateNonEmpty: the prompt answer is modelled as a string, so an `undefined` answer is not modelled.
- `tryCatch` and `all` (src/helpers/async.js, src/helpers/utils.js) are Promise plumbing.
- Records carry only the fields the core reads or writes. Other fields of an account or transaction, which the spreads would copy, are not modelled. `meta`'s other fields are an opaque map.
