/** Sequence helpers with the semantics of the lodash functions the source uses. */
module Sequences {

  /** No element occurs twice. */
  ghost predicate NoDuplicates<T>(s: seq<T>)
  {
    forall i, j :: 0 <= i < j < |s| ==> s[i] != s[j]
  }

  /** Index of the first occurrence of `x` in `s`. */
  function FirstIndex<T(==)>(s: seq<T>, x: T): (k: nat)
    requires x in s
    ensures k < |s| && s[k] == x
    ensures forall j :: 0 <= j < k ==> s[j] != x
  {
    if s[0] == x then 0 else 1 + FirstIndex(s[1..], x)
  }

  /** `s` lists its elements in the order of their first occurrence in `t`. */
  ghost predicate InFirstOccurrenceOrder<T>(s: seq<T>, t: seq<T>)
    requires forall i :: 0 <= i < |s| ==> s[i] in t
  {
    forall i, j :: 0 <= i < j < |s| ==> FirstIndex(t, s[i]) < FirstIndex(t, s[j])
  }

  /**
   * lodash `uniq`: keeps the first occurrence of every element, in order.
   * The result has no duplicates and holds exactly the elements of `s`.
   */
  function Uniq<T(==)>(s: seq<T>): (r: seq<T>)
    ensures NoDuplicates(r)
    ensures forall i :: 0 <= i < |r| ==> r[i] in s
    ensures forall i :: 0 <= i < |s| ==> s[i] in r
    ensures |r| <= |s|
  {
    if |s| == 0 then []
    else
      var u := Uniq(s[..|s| - 1]);
      var x := s[|s| - 1];
      assert s == s[..|s| - 1] + [x];
      if x in u then u else u + [x]
  }

  lemma {:induction false} FirstIndexOfPrefix<T>(s: seq<T>, n: nat, x: T)
    requires n <= |s| && x in s[..n]
    ensures FirstIndex(s, x) == FirstIndex(s[..n], x)
  {
    if s[0] != x {
      assert s[1..][..n - 1] == s[..n][1..];
      FirstIndexOfPrefix(s[1..], n - 1, x);
    }
  }

  lemma FirstIndexOfNew<T>(s: seq<T>, n: nat)
    requires n < |s| && s[n] !in s[..n]
    ensures FirstIndex(s, s[n]) == n
  {
  }

  /** Uniq lists the distinct elements in the order in which they first appear. */
  lemma {:induction false} UniqKeepsFirstOccurrenceOrder<T>(s: seq<T>)
    ensures InFirstOccurrenceOrder(Uniq(s), s)
  {
    if |s| > 0 {
      var p := s[..|s| - 1];
      var x := s[|s| - 1];
      var u := Uniq(p);
      UniqKeepsFirstOccurrenceOrder(p);
      assert s[..|s| - 1] == p;
      forall y | y in u
        ensures FirstIndex(s, y) == FirstIndex(p, y) && FirstIndex(p, y) < |p|
      {
        FirstIndexOfPrefix(s, |s| - 1, y);
      }
      if x !in u {
        FirstIndexOfNew(s, |s| - 1);
        var r := u + [x];
        forall i, j | 0 <= i < j < |r|
          ensures FirstIndex(s, r[i]) < FirstIndex(s, r[j])
        {
          assert r[i] in u;
          if j < |u| {
            assert r[j] in u;
          }
        }
      }
    }
  }
}
