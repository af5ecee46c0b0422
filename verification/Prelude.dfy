/** What every module of the project uses. */
module Prelude {

  datatype Option<+T> = None | Some(value: T)

  datatype Result<+T, +E> = Ok(value: T) | Err(error: E)

  function Max(a: nat, b: nat): nat {
    if a < b then b else a
  }

  lemma Regroup<T>(a: seq<T>, b: seq<T>, c: seq<T>)
    ensures a + (b + c) == a + b + c
  {
  }

  /** A sequence of distinct members of a finite set is no longer than the set. */
  lemma {:induction false} DistinctWithin<T>(s: seq<T>, whole: set<T>)
    requires forall i | 0 <= i < |s| :: s[i] in whole
    requires forall i, j | 0 <= i < j < |s| :: s[i] != s[j]
    ensures |s| <= |whole|
  {
    if s != [] {
      var last := s[|s| - 1];
      DistinctWithin(s[..|s| - 1], whole - {last});
    }
  }

  /** A set of naturals below `n` has at most `n` members. */
  lemma {:induction false} BelowBound(s: set<nat>, n: nat)
    requires forall x | x in s :: x < n
    ensures |s| <= n
  {
    if n == 0 {
      assert s == {};
    } else {
      BelowBound(s - {n - 1}, n - 1);
    }
  }
}
