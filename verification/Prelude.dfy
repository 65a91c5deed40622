/** Datatypes and sequence facts shared by every component of the signer model. */
module Prelude {

  datatype Option<+T> = None | Some(value: T)

  datatype Result<+T, +E> = Ok(value: T) | Err(error: E)

  /** No value occurs at two indices. */
  ghost predicate Distinct<T(!new)>(s: seq<T>) {
    forall i, j :: 0 <= i < j < |s| ==> s[i] != s[j]
  }

  /** The index of `x` in `s`; unique when `s` is `Distinct`. */
  ghost function Rank<T(!new)>(s: seq<T>, x: T): (i: nat)
    requires x in s
    ensures i < |s| && s[i] == x
  {
    var i :| 0 <= i < |s| && s[i] == x;
    i
  }

  lemma ConcatAssociates<T>(a: seq<T>, b: seq<T>, c: seq<T>)
    ensures a + (b + c) == (a + b) + c
  {
  }

  /** Counting a set with and without one element. */
  lemma CountOne<T>(a: set<T>, x: T)
    ensures |a| == |a - {x}| + (if x in a then 1 else 0)
  {
  }

  lemma SubsetIsSmaller<T>(a: set<T>, b: set<T>)
    requires a <= b
    ensures |a| <= |b|
  {
    assert b == a + (b - a);
  }

  /** What every step of a run keeps holds along the run. */
  lemma {:induction false} HoldsAlong(p: int -> bool, n: nat)
    requires p(0) && forall k :: 0 <= k < n && p(k) ==> p(k + 1)
    ensures p(n)
  {
    if n > 0 {
      HoldsAlong(p, n - 1);
      assert p(n - 1 + 1);
    }
  }

  lemma {:induction false} HoldsBetween(p: int -> bool, lo: int, hi: int)
    requires lo <= hi && p(lo) && forall k :: lo <= k < hi && p(k) ==> p(k + 1)
    ensures p(hi)
    decreases hi - lo
  {
    if lo < hi {
      HoldsBetween(p, lo, hi - 1);
      assert p(hi - 1 + 1);
    }
  }
}
