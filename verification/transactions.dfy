/** The records the bank scraper hands over: accounts holding ordered transactions. */
module Transactions {
  import opened Wrappers
  import opened Calendar
  import opened Money

  /** The currency every account is kept in. */
  const LOCAL_CURRENCY := "ILS"

  /** `txn.installments`, present on installment purchases. */
  datatype Installments = Installments(number: int, total: int)

  /** `meta.original`: the pre-conversion currency and amounts. */
  datatype Snapshot = Snapshot(originalCurrency: string, chargedAmount: Amount, originalAmount: Amount)

  /**
   * `txn.meta`. The two fields the conversion writes are kept apart from all the
   * other fields a record may carry; an absent `meta` spreads as `NoMeta`.
   */
  datatype Meta = Meta(converted: Option<bool>, original: Option<Snapshot>, other: map<string, string>)

  const NoMeta := Meta(None, None, map[])

  /** One scraped transaction; `kind` is the source's `type` field. */
  datatype Txn = Txn(
    date: DateTime,
    originalCurrency: string,
    chargedAmount: Amount,
    originalAmount: Amount,
    kind: string,
    installments: Option<Installments>,
    description: string,
    meta: Meta)

  datatype Account = Account(accountNumber: string, txns: seq<Txn>)

  /** Every field but `meta` is the same. */
  predicate SameExceptMeta(a: Txn, b: Txn)
  {
    a.(meta := b.meta) == b
  }

  /** Every field but the two amounts and `meta` is the same. */
  predicate SameExceptAmountsAndMeta(a: Txn, b: Txn)
  {
    a.(chargedAmount := b.chargedAmount, originalAmount := b.originalAmount, meta := b.meta) == b
  }

  /** Every field but `originalCurrency` is the same. */
  predicate SameExceptCurrency(a: Txn, b: Txn)
  {
    a.(originalCurrency := b.originalCurrency) == b
  }

  /** lodash `flatMap(accounts, 'txns')`: all transactions, account by account, in order. */
  function AllTxns(accounts: seq<Account>): (r: seq<Txn>)
    ensures forall t :: t in r <==> exists i :: 0 <= i < |accounts| && t in accounts[i].txns
  {
    if |accounts| == 0 then []
    else
      var rest := AllTxns(accounts[1..]);
      assert forall i :: 1 <= i < |accounts| ==> accounts[i] == accounts[1..][i - 1];
      assert forall t :: t in rest ==> exists i :: 1 <= i < |accounts| && t in accounts[i].txns by {
        forall t | t in rest ensures exists i :: 1 <= i < |accounts| && t in accounts[i].txns {
          var i :| 0 <= i < |accounts[1..]| && t in accounts[1..][i].txns;
          assert t in accounts[i + 1].txns;
        }
      }
      accounts[0].txns + rest
  }

  /** Flattening no accounts gives no transactions, and one account gives its own list. */
  lemma AllTxnsSingleton(x: Account)
    ensures AllTxns([]) == []
    ensures AllTxns([x]) == x.txns
  {
    assert [x][1..] == [];
  }

  /**
   * Flattening distributes over concatenation, which fixes the order and
   * multiplicity of every transaction.
   */
  lemma {:induction false} AllTxnsAppend(a: seq<Account>, b: seq<Account>)
    ensures AllTxns(a + b) == AllTxns(a) + AllTxns(b)
  {
    if |a| == 0 {
      assert a + b == b;
    } else {
      assert (a + b)[1..] == a[1..] + b;
      AllTxnsAppend(a[1..], b);
      assert AllTxns(a + b) == a[0].txns + AllTxns(a[1..] + b);
    }
  }
}
