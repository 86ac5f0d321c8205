/**
  The array operations the screens use on their held lists: `Array.prototype.filter`
  (for the search filters and for dropping a deleted record) and `Math.max` over ids.
*/
module Seqs {

  /** `r` is `s` with some elements dropped and the rest in their original order. */
  ghost predicate IsSubsequence<T>(r: seq<T>, s: seq<T>)
    decreases |s|
  {
    r == [] || (s != [] && ((r[0] == s[0] && IsSubsequence(r[1..], s[1..])) || IsSubsequence(r, s[1..])))
  }

  /** `s.filter(p)`. */
  function Filter<T(!new)>(s: seq<T>, p: T -> bool): (r: seq<T>)
    ensures |r| <= |s|
    ensures forall i :: 0 <= i < |r| ==> p(r[i])
    ensures forall x :: x in r <==> x in s && p(x)
    ensures IsSubsequence(r, s)
  {
    if s == [] then []
    else if p(s[0]) then [s[0]] + Filter(s[1..], p)
    else Filter(s[1..], p)
  }

  /** Filtering a concatenation filters each part: the filter works element by element. */
  lemma {:induction false} FilterConcat<T(!new)>(a: seq<T>, b: seq<T>, p: T -> bool)
    ensures Filter(a + b, p) == Filter(a, p) + Filter(b, p)
  {
    if a != [] {
      assert (a + b)[1..] == a[1..] + b;
      FilterConcat(a[1..], b, p);
    } else {
      assert a + b == b;
    }
  }

  /** When every element passes, the filter returns the list unchanged. */
  lemma {:induction false} FilterKeepsAll<T(!new)>(s: seq<T>, p: T -> bool)
    requires forall i :: 0 <= i < |s| ==> p(s[i])
    ensures Filter(s, p) == s
  {
    if s != [] {
      FilterKeepsAll(s[1..], p);
    }
  }

  /** Every passing element keeps all its occurrences; failing ones have none. */
  lemma {:induction false} FilterCount<T(!new)>(s: seq<T>, p: T -> bool, x: T)
    ensures multiset(Filter(s, p))[x] == if p(x) then multiset(s)[x] else 0
  {
    if s != [] {
      FilterCount(s[1..], p, x);
      assert s == [s[0]] + s[1..];
    }
  }

  /** `s.filter(x => id(x) !== k)`: the reconciliation after deleting record `k`. */
  function WithoutId<T(!new)>(s: seq<T>, id: T -> int, k: int): (r: seq<T>)
    ensures forall i :: 0 <= i < |r| ==> id(r[i]) != k
    ensures forall x :: x in r <==> x in s && id(x) != k
    ensures IsSubsequence(r, s)
  {
    Filter(s, x => id(x) != k)
  }

  /** Deleting an id that the list does not hold leaves the list as it is. */
  lemma WithoutAbsentId<T(!new)>(s: seq<T>, id: T -> int, k: int)
    requires forall i :: 0 <= i < |s| ==> id(s[i]) != k
    ensures WithoutId(s, id, k) == s
  {
    FilterKeepsAll(s, x => id(x) != k);
  }

  /** Records with another id keep every occurrence; records with id `k` have none left. */
  lemma WithoutIdCount<T(!new)>(s: seq<T>, id: T -> int, k: int, x: T)
    ensures multiset(WithoutId(s, id, k))[x] == if id(x) == k then 0 else multiset(s)[x]
  {
    FilterCount(s, y => id(y) != k, x);
  }

  /** Removing an id and filtering can be done in either order. */
  lemma {:induction false} FilterWithoutId<T(!new)>(s: seq<T>, id: T -> int, k: int, p: T -> bool)
    ensures Filter(WithoutId(s, id, k), p) == WithoutId(Filter(s, p), id, k)
  {
    if s != [] {
      var x, rest := s[0], s[1..];
      FilterWithoutId(rest, id, k, p);
      if id(x) != k {
        assert WithoutId(s, id, k) == [x] + WithoutId(rest, id, k);
        if p(x) {
          assert ([x] + Filter(rest, p))[1..] == Filter(rest, p);
        }
      }
    }
  }

  /** `Math.max(...s)` for a non-empty list of integers. */
  function MaxOf(s: seq<int>): (m: int)
    requires |s| > 0
    ensures m in s
    ensures forall i :: 0 <= i < |s| ==> s[i] <= m
  {
    if |s| == 1 then s[0]
    else
      var rest := MaxOf(s[1..]);
      if s[0] >= rest then s[0] else rest
  }
}
