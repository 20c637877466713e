/**
 * The array operations the pages use: a stable `filter`, and `slice` with
 * JavaScript's treatment of negative and out-of-range indices.
 */
module Seqs {

  /** `a` can be obtained from `b` by deleting elements, keeping the rest in order. */
  predicate IsSubsequence<T(==)>(a: seq<T>, b: seq<T>)
    decreases |b|
  {
    if a == [] then true
    else if b == [] then false
    else (a[0] == b[0] && IsSubsequence(a[1..], b[1..])) || IsSubsequence(a, b[1..])
  }

  /** `Array.prototype.filter`: the elements that `keep` accepts, in their original order. */
  function Filter<T(==)>(s: seq<T>, keep: T -> bool): (r: seq<T>)
    ensures |r| <= |s|
    ensures forall i :: 0 <= i < |r| ==> keep(r[i]) && r[i] in s
    ensures forall i :: 0 <= i < |s| && keep(s[i]) ==> s[i] in r
    ensures forall i :: 0 <= i < |s| && keep(s[i]) ==> multiset(r)[s[i]] == multiset(s)[s[i]]
  {
    assert s != [] ==> s == [s[0]] + s[1..];
    if s == [] then []
    else if keep(s[0]) then [s[0]] + Filter(s[1..], keep)
    else Filter(s[1..], keep)
  }

  lemma {:induction false} SubsequenceOfItself<T>(s: seq<T>)
    ensures IsSubsequence(s, s)
    decreases |s|
  {
    if s != [] {
      SubsequenceOfItself(s[1..]);
    }
  }

  /** A filter never reorders: its result is a subsequence of its input. */
  lemma {:induction false} FilterIsSubsequence<T>(s: seq<T>, keep: T -> bool)
    ensures IsSubsequence(Filter(s, keep), s)
  {
    if s != [] {
      FilterIsSubsequence(s[1..], keep);
      if keep(s[0]) {
        assert Filter(s, keep)[1..] == Filter(s[1..], keep);
      }
    }
  }

  /**
   * `filter(keep).slice(0, n)` for `n > 0`: the first `min(n, k)` of the `k`
   * accepted elements, in order; all of them when fewer than `n` are
   * accepted; empty exactly when nothing is accepted.
   */
  lemma FirstKept<T>(s: seq<T>, keep: T -> bool, n: nat)
    requires n > 0
    ensures var f := Filter(s, keep); var r := JsSlice(f, 0, n);
      && |r| == (if |f| < n then |f| else n) && r == f[..|r|]
      && (forall i :: 0 <= i < |r| ==> keep(r[i]))
      && IsSubsequence(r, s)
      && (|r| < n ==> forall i :: 0 <= i < |s| && keep(s[i]) ==> s[i] in r)
      && (r == [] <==> forall i :: 0 <= i < |s| ==> !keep(s[i]))
  {
    var f := Filter(s, keep);
    FilterIsSubsequence(s, keep);
    TakePrefix(f, n);
    PrefixOfSubsequence(f, s, if |f| < n then |f| else n);
  }

  /** Filtering with a test that accepts everything returns the input unchanged. */
  lemma {:induction false} FilterAll<T>(s: seq<T>, keep: T -> bool)
    requires forall i :: 0 <= i < |s| ==> keep(s[i])
    ensures Filter(s, keep) == s
  {
    if s != [] {
      FilterAll(s[1..], keep);
      assert [s[0]] + s[1..] == s;
    }
  }

  /** Every prefix of a subsequence is still a subsequence. */
  lemma {:induction false} PrefixOfSubsequence<T>(a: seq<T>, b: seq<T>, k: nat)
    requires IsSubsequence(a, b)
    requires k <= |a|
    ensures IsSubsequence(a[..k], b)
    decreases |b|
  {
    if k > 0 {
      if a[0] == b[0] && IsSubsequence(a[1..], b[1..]) {
        PrefixOfSubsequence(a[1..], b[1..], k - 1);
        assert a[..k][1..] == a[1..][..k - 1];
      } else {
        PrefixOfSubsequence(a, b[1..], k);
      }
    }
  }

  /** Resolve a relative `slice` index against a length, as JavaScript does. */
  function RelativeIndex(i: int, len: nat): (r: nat)
    ensures r <= len
    ensures 0 <= i ==> r == if i < len then i else len
    ensures i < 0 ==> r == if len + i > 0 then len + i else 0
  {
    if i < 0 then (if len + i > 0 then len + i else 0)
    else if i < len then i else len
  }

  /**
   * `Array.prototype.slice(start, end)`: negative indices count from the
   * end, indices beyond the array are clipped, and an empty range gives `[]`.
   */
  function JsSlice<T>(s: seq<T>, start: int, end: int): (r: seq<T>)
    ensures |r| <= |s|
    ensures start <= end ==> |r| <= end - start
    ensures 0 <= start <= end ==> r == s[RelativeIndex(start, |s|)..RelativeIndex(end, |s|)]
  {
    var lo := RelativeIndex(start, |s|);
    var hi := RelativeIndex(end, |s|);
    if lo < hi then s[lo..hi] else []
  }

  /** `slice(0, n)`: the first `min(n, |s|)` elements. */
  lemma TakePrefix<T>(s: seq<T>, n: nat)
    ensures |JsSlice(s, 0, n)| == if n < |s| then n else |s|
    ensures JsSlice(s, 0, n) == s[..|JsSlice(s, 0, n)|]
  {
  }
}
