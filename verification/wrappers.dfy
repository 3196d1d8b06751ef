/** Option and Result values for JavaScript's `undefined` lookups and thrown errors. */
module Wrappers {

  /** A value that may be absent, as a missing object property reads as `undefined`. */
  datatype Option<+T> = None | Some(value: T)

  /** The outcome of a computation that may throw. */
  datatype Result<+R, +E> = Success(value: R) | Failure(error: E)

  /** Reads `m[k]` the way a JavaScript property read does: `undefined` when the key is absent. */
  function Lookup<K, V>(m: map<K, V>, k: K): (r: Option<V>)
    ensures r.Some? <==> k in m
    ensures r.Some? ==> r.value == m[k]
  {
    if k in m then Some(m[k]) else None
  }

  /**
   * `s.map(f)` where `f` may throw: the first element whose `f` fails aborts the
   * whole map with that error; otherwise every element is mapped, in order.
   */
  function MapResult<T, U, E(==)>(f: T -> Result<U, E>, s: seq<T>): (r: Result<seq<U>, E>)
    ensures r.Success? <==> forall j :: 0 <= j < |s| ==> f(s[j]).Success?
    ensures r.Success? ==> |r.value| == |s| && forall j :: 0 <= j < |s| ==> r.value[j] == f(s[j]).value
    ensures r.Failure? ==>
              exists k :: 0 <= k < |s| && f(s[k]).Failure? && r.error == f(s[k]).error
                && forall j :: 0 <= j < k ==> f(s[j]).Success?
  {
    if |s| == 0 then Success([])
    else
      var head := f(s[0]);
      if head.Failure? then Failure(head.error)
      else
        var tail := MapResult(f, s[1..]);
        assert forall j :: 1 <= j < |s| ==> s[j] == s[1..][j - 1];
        if tail.Failure? then
          var k :| 0 <= k < |s[1..]| && f(s[1..][k]).Failure? && tail.error == f(s[1..][k]).error
                   && forall j :: 0 <= j < k ==> f(s[1..][j]).Success?;
          assert f(s[k + 1]).Failure?;
          Failure(tail.error)
        else Success([head.value] + tail.value)
  }
}
