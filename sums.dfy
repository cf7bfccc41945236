/**
 * Sums over sequences: the model of lodash's `_.sumBy`, with the facts the
 * mappers' contracts need (a sum splits over concatenation, ignores terms that
 * are zero, and does not depend on the order of the elements).
 */
module Sums {

  /**
   * `_.sumBy(s, f)`: the sum of `f(x)` over the elements `x` of `s`. Defined on
   * the last element, so that extending a prefix by one element adds one term.
   */
  function SumBy<T>(s: seq<T>, f: T -> int): int
  {
    if |s| == 0 then 0 else SumBy(s[..|s| - 1], f) + f(s[|s| - 1])
  }

  /** Extending a prefix by the next element adds that element's term. */
  lemma SumByStep<T>(s: seq<T>, k: int, f: T -> int)
    requires 0 <= k < |s|
    ensures SumBy(s[..k + 1], f) == SumBy(s[..k], f) + f(s[k])
  {
    assert s[..k + 1][..k] == s[..k];
  }

  /** The elements of `s` that satisfy `p`, in their original order. */
  function Filter<T>(s: seq<T>, p: T -> bool): (r: seq<T>)
    ensures |r| <= |s|
    ensures forall i :: 0 <= i < |r| ==> p(r[i])
  {
    if |s| == 0 then [] else Filter(s[..|s| - 1], p) + (if p(s[|s| - 1]) then [s[|s| - 1]] else [])
  }

  lemma {:induction false} SumByAppend<T>(a: seq<T>, b: seq<T>, f: T -> int)
    ensures SumBy(a + b, f) == SumBy(a, f) + SumBy(b, f)
    decreases |b|
  {
    if |b| == 0 {
      assert a + b == a;
    } else {
      var b' := b[..|b| - 1];
      assert (a + b)[..|a + b| - 1] == a + b';
      SumByAppend(a, b', f);
    }
  }

  /** Taking one element out of a sequence takes its term out of the sum. */
  lemma SumByRemove<T>(s: seq<T>, i: int, f: T -> int)
    requires 0 <= i < |s|
    ensures SumBy(s, f) == SumBy(s[..i] + s[i + 1..], f) + f(s[i])
  {
    assert s == (s[..i] + [s[i]]) + s[i + 1..];
    SumByAppend(s[..i] + [s[i]], s[i + 1..], f);
    SumByAppend(s[..i], [s[i]], f);
    SumByAppend(s[..i], s[i + 1..], f);
    assert [s[i]][..0] == [];
  }

  /** Taking one occurrence of `s[i]` out of a sequence takes it out of its multiset. */
  lemma MultisetRemove<T>(s: seq<T>, i: int)
    requires 0 <= i < |s|
    ensures multiset(s[..i] + s[i + 1..]) == multiset(s) - multiset{s[i]}
  {
    assert s == s[..i] + [s[i]] + s[i + 1..];
    assert multiset(s) == multiset(s[..i]) + multiset{s[i]} + multiset(s[i + 1..]);
  }

  /** A sum depends only on the multiset of summed elements, not on their order. */
  lemma {:induction false} SumByPermutation<T>(a: seq<T>, b: seq<T>, f: T -> int)
    requires multiset(a) == multiset(b)
    ensures SumBy(a, f) == SumBy(b, f)
    decreases |a|
  {
    if |a| == 0 {
      assert |b| == |multiset(b)| == 0;
    } else {
      var n := |a| - 1;
      var x := a[n];
      assert x in multiset(b) by {
        assert x in multiset(a);
      }
      var i :| 0 <= i < |b| && b[i] == x;
      MultisetRemove(a, n);
      MultisetRemove(b, i);
      assert a[..n] + a[n + 1..] == a[..n];
      SumByPermutation(a[..n], b[..i] + b[i + 1..], f);
      SumByRemove(b, i, f);
    }
  }

  /** Leaving out elements whose term is zero does not change the sum. */
  lemma {:induction false} SumByFilter<T>(s: seq<T>, p: T -> bool, f: T -> int)
    requires forall i :: 0 <= i < |s| && !p(s[i]) ==> f(s[i]) == 0
    ensures SumBy(Filter(s, p), f) == SumBy(s, f)
  {
    if |s| > 0 {
      var s' := s[..|s| - 1];
      var x := s[|s| - 1];
      SumByFilter(s', p, f);
      SumByAppend(Filter(s', p), if p(x) then [x] else [], f);
      assert [x][..0] == [];
    }
  }
}
