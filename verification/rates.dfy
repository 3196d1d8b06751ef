/**
 * The cache store of `src/helpers/rates.js`: an in-memory map from day key to
 * rate table, read by `get` and written by `put`, which hands the whole map to
 * `save` every time.
 */
module RateStore {
  import opened Wrappers
  import opened Money

  /** One request to `save(cachePath, rates)`: the full map at that moment, not a diff. */
  datatype SaveCall = SaveCall(cachePath: string, snapshot: map<string, RateTable>)

  /** The store's state: its cache path, the map, and every save requested so far. */
  datatype Store = Store(cachePath: string, rates: map<string, RateTable>, saves: seq<SaveCall>)

  /** The store as `createClient` builds it around the map read from `cachePath`. */
  function Open(cachePath: string, loaded: map<string, RateTable>): (s: Store)
    ensures s.rates == loaded && s.cachePath == cachePath && s.saves == []
  {
    Store(cachePath, loaded, [])
  }

  /** `store.get(date)`: the table stored under `date`, or `undefined`. */
  function Get(s: Store, date: string): (r: Option<RateTable>)
    ensures r.Some? <==> date in s.rates
    ensures r.Some? ==> r.value == s.rates[date]
  {
    Lookup(s.rates, date)
  }

  /** `store.put(value, date)`: stores the table and asks `save` to write the whole map. */
  function Put(s: Store, value: RateTable, date: string): (r: Store)
    ensures Get(r, date) == Some(value)
    ensures forall d :: d != date ==> Get(r, d) == Get(s, d)
    ensures r.rates.Keys == s.rates.Keys + {date}
    ensures r.cachePath == s.cachePath
    ensures r.saves == s.saves + [SaveCall(s.cachePath, r.rates)]
  {
    var rates := s.rates[date := value];
    Store(s.cachePath, rates, s.saves + [SaveCall(s.cachePath, rates)])
  }

  /** Putting the table a date already holds leaves the map as it was (a save is still requested). */
  lemma PutSameValueKeepsMap(s: Store, value: RateTable, date: string)
    requires Get(s, date) == Some(value)
    ensures Put(s, value, date).rates == s.rates
  {
  }

  /** The calls the rate client makes on its store. */
  datatype Op = GetOp(date: string) | PutOp(value: RateTable, date: string)

  /** The store after a sequence of calls; `get` leaves it unchanged. */
  function Run(s: Store, ops: seq<Op>): Store
    decreases |ops|
  {
    if |ops| == 0 then s
    else
      var next := match ops[0]
        case GetOp(_) => s
        case PutOp(value, date) => Put(s, value, date);
      Run(next, ops[1..])
  }

  /** The number of `put` calls in a sequence of calls. */
  function PutCount(ops: seq<Op>): nat
  {
    if |ops| == 0 then 0 else (if ops[0].PutOp? then 1 else 0) + PutCount(ops[1..])
  }

  /** The table most recently put under `date` in `ops`, if any. */
  function LastPut(ops: seq<Op>, date: string): Option<RateTable>
  {
    if |ops| == 0 then None
    else
      var last := ops[|ops| - 1];
      if last.PutOp? && last.date == date then Some(last.value) else LastPut(ops[..|ops| - 1], date)
  }

  lemma {:induction false} RunSplit(s: Store, ops: seq<Op>)
    requires |ops| > 0
    ensures Run(s, ops) == Run(Run(s, ops[..|ops| - 1]), [ops[|ops| - 1]])
    decreases |ops|
  {
    if |ops| > 1 {
      var next := match ops[0]
        case GetOp(_) => s
        case PutOp(value, date) => Put(s, value, date);
      assert ops[1..][..|ops[1..]| - 1] == ops[..|ops| - 1][1..];
      RunSplit(next, ops[1..]);
    }
  }

  /**
   * `get` after any sequence of calls returns the table last put under that date,
   * or what the loaded map held if the date was never put.
   */
  lemma {:induction false} GetAfterRun(s: Store, ops: seq<Op>, date: string)
    ensures Get(Run(s, ops), date) == (if LastPut(ops, date).Some? then LastPut(ops, date) else Get(s, date))
    decreases |ops|
  {
    if |ops| > 0 {
      RunSplit(s, ops);
      GetAfterRun(s, ops[..|ops| - 1], date);
    }
  }

  /**
   * The store only grows: no key is ever removed, the cache path never changes,
   * and every `put` adds exactly one save request.
   */
  lemma {:induction false} RunGrows(s: Store, ops: seq<Op>)
    ensures s.rates.Keys <= Run(s, ops).rates.Keys
    ensures Run(s, ops).cachePath == s.cachePath
    ensures |Run(s, ops).saves| == |s.saves| + PutCount(ops)
    ensures s.saves <= Run(s, ops).saves
    ensures forall k :: |s.saves| <= k < |Run(s, ops).saves| ==> Run(s, ops).saves[k].cachePath == s.cachePath
    decreases |ops|
  {
    if |ops| > 0 {
      var next := match ops[0]
        case GetOp(_) => s
        case PutOp(value, date) => Put(s, value, date);
      RunGrows(next, ops[1..]);
    }
  }

  /** After any call sequence with at least one `put`, the last save requested holds the current map. */
  lemma {:induction false} LastSaveIsCurrentMap(s: Store, ops: seq<Op>)
    requires PutCount(ops) > 0
    ensures |Run(s, ops).saves| > 0
    ensures Run(s, ops).saves[|Run(s, ops).saves| - 1] == SaveCall(s.cachePath, Run(s, ops).rates)
    decreases |ops|
  {
    RunGrows(s, ops);
    var next := match ops[0]
      case GetOp(_) => s
      case PutOp(value, date) => Put(s, value, date);
    if PutCount(ops[1..]) > 0 {
      LastSaveIsCurrentMap(next, ops[1..]);
    } else {
      RunOnlyGets(next, ops[1..]);
    }
  }

  lemma {:induction false} RunOnlyGets(s: Store, ops: seq<Op>)
    requires PutCount(ops) == 0
    ensures Run(s, ops) == s
    decreases |ops|
  {
    if |ops| > 0 {
      RunOnlyGets(s, ops[1..]);
    }
  }
}
