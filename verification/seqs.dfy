/** Generic facts about sequences used by the matcher: duplicate freedom,
    prefixes, order-preserving subsequences and Python's `xs[:n]` slice. */
module Seqs {

  /** No element occurs twice. */
  predicate NoDups<T(==)>(xs: seq<T>)
  {
    forall i, j :: 0 <= i < j < |xs| ==> xs[i] != xs[j]
  }

  /** `p` is an initial segment of `xs`. */
  predicate IsPrefix<T(==)>(p: seq<T>, xs: seq<T>)
  {
    |p| <= |xs| && xs[..|p|] == p
  }

  /** `a` can be obtained from `b` by deleting elements, keeping the rest in order. */
  predicate IsSubsequence<T(==)>(a: seq<T>, b: seq<T>)
    decreases |b|
  {
    || |a| == 0
    || (&& |b| > 0
        && ((a[0] == b[0] && IsSubsequence(a[1..], b[1..])) || IsSubsequence(a, b[1..])))
  }

  function Min(a: int, b: int): int
  {
    if a <= b then a else b
  }

  function Max(a: int, b: int): int
  {
    if a <= b then b else a
  }

  /** Number of elements Python's `xs[:n]` keeps from a list of length `len`:
      a non-negative `n` keeps at most `n`, a negative `n` drops the last `-n`. */
  function SliceLength(len: nat, n: int): (k: nat)
    ensures k <= len
    ensures 0 <= n ==> k == Min(n, len)
    ensures n < 0 ==> k == Max(0, len + n)
  {
    if 0 <= n then Min(n, len) else Max(0, len + n)
  }

  /** Python's `xs[:n]`. */
  function SlicePrefix<T>(xs: seq<T>, n: int): (r: seq<T>)
    ensures |r| == SliceLength(|xs|, n)
    ensures r == xs[..|r|]
  {
    xs[..SliceLength(|xs|, n)]
  }

  /** The set of elements of a duplicate-free sequence has as many members as
      the sequence has positions. */
  lemma {:induction false} NoDupsCardinality<T>(xs: seq<T>)
    requires NoDups(xs)
    ensures |set x | x in xs| == |xs|
    decreases |xs|
  {
    if |xs| > 0 {
      var init := xs[..|xs| - 1];
      var last := xs[|xs| - 1];
      assert NoDups(init);
      NoDupsCardinality(init);
      forall i | 0 <= i < |init|
        ensures init[i] != last
      {
        assert xs[i] != xs[|xs| - 1];
      }
      assert (set x | x in xs) == (set x | x in init) + {last} by {
        assert xs == init + [last];
      }
    }
  }
}
