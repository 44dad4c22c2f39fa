/** Ranking the scored jobs: `sorted(results, key=match_score, reverse=True)[:top_n]`
    at the end of `get_top_matches_with_feedback` (main.py). Python's sort is
    stable, also with `reverse=True`, so jobs with equal scores keep their
    feed order. */
module Ranking {
  import opened Seqs
  import opened Matching

  /** Default number of jobs returned. */
  const DefaultTopN: int := 5

  /** Scores never increase along the sequence. */
  predicate SortedByScore(rs: seq<MatchResult>)
  {
    forall i, j :: 0 <= i < j < |rs| ==> rs[i].matchScore >= rs[j].matchScore
  }

  /** The entries scored `k`, in their order in `rs`. A reordering that keeps
      `WithScore(rs, k)` for every `k` is exactly a stable one. */
  function WithScore(rs: seq<MatchResult>, k: int): seq<MatchResult>
    decreases |rs|
  {
    if |rs| == 0 then []
    else (if rs[0].matchScore == k then [rs[0]] else []) + WithScore(rs[1..], k)
  }

  /** `WithScore` of a concatenation is the concatenation of `WithScore`s. */
  lemma {:induction false} WithScoreAppend(a: seq<MatchResult>, b: seq<MatchResult>, k: int)
    ensures WithScore(a + b, k) == WithScore(a, k) + WithScore(b, k)
    decreases |a|
  {
    if |a| > 0 {
      assert (a + b)[0] == a[0];
      assert (a + b)[1..] == a[1..] + b;
      WithScoreAppend(a[1..], b, k);
    } else {
      assert a + b == b;
    }
  }

  /** Places `x` in front of the first entry it does not score below: before
      all entries with the same score, as a stable sort must for an entry that
      came earlier in the input. */
  function Insert(x: MatchResult, rs: seq<MatchResult>): (r: seq<MatchResult>)
    ensures multiset(r) == multiset(rs) + multiset{x}
    decreases |rs|
  {
    if |rs| == 0 || rs[0].matchScore <= x.matchScore then [x] + rs
    else
      assert rs == [rs[0]] + rs[1..];
      [rs[0]] + Insert(x, rs[1..])
  }

  /** Inserting into a sorted sequence keeps it sorted. */
  lemma {:induction false} InsertSorted(x: MatchResult, rs: seq<MatchResult>)
    requires SortedByScore(rs)
    ensures SortedByScore(Insert(x, rs))
    decreases |rs|
  {
    if |rs| > 0 && rs[0].matchScore > x.matchScore {
      var tail := Insert(x, rs[1..]);
      InsertSorted(x, rs[1..]);
      forall y | y in tail
        ensures y.matchScore <= rs[0].matchScore
      {
        assert y in multiset(tail);
        assert y == x || y in multiset(rs[1..]);
      }
      assert Insert(x, rs) == [rs[0]] + tail;
    }
  }

  /** Inserting `x` puts it first among the entries with its score and
      leaves every other score's entries as they were. */
  lemma {:induction false} InsertWithScore(x: MatchResult, rs: seq<MatchResult>, k: int)
    requires SortedByScore(rs)
    ensures WithScore(Insert(x, rs), k) == (if x.matchScore == k then [x] else []) + WithScore(rs, k)
    decreases |rs|
  {
    if |rs| == 0 || rs[0].matchScore <= x.matchScore {
      WithScoreAppend([x], rs, k);
    } else {
      InsertWithScore(x, rs[1..], k);
      WithScoreAppend([rs[0]], Insert(x, rs[1..]), k);
      WithScoreAppend([rs[0]], rs[1..], k);
      assert rs == [rs[0]] + rs[1..];
    }
  }

  /** Stable sort by descending score (insertion sort). */
  function SortByScore(rs: seq<MatchResult>): (r: seq<MatchResult>)
    ensures SortedByScore(r)
    ensures multiset(r) == multiset(rs)
    ensures forall k :: WithScore(r, k) == WithScore(rs, k)
    decreases |rs|
  {
    if |rs| == 0 then []
    else
      var rest := SortByScore(rs[1..]);
      InsertSorted(rs[0], rest);
      forall k
        ensures WithScore(Insert(rs[0], rest), k) == WithScore(rs, k)
      {
        InsertWithScore(rs[0], rest, k);
      }
      assert rs == [rs[0]] + rs[1..];
      Insert(rs[0], rest)
  }

  /** `results`: every job of the feed scored, in feed order. */
  function Results(resumeSkills: seq<string>, feed: seq<Job>, pro: bool): (r: seq<MatchResult>)
    ensures |r| == |feed|
    ensures forall i :: 0 <= i < |feed| ==> r[i] == Evaluate(resumeSkills, feed[i], pro)
  {
    seq(|feed|, i requires 0 <= i < |feed| => Evaluate(resumeSkills, feed[i], pro))
  }

  /** `sorted(results, key=match_score, reverse=True)[:top_n]` for any list
      of scored entries. */
  function RankResults(results: seq<MatchResult>, topN: int): (r: seq<MatchResult>)
    ensures |r| == SliceLength(|results|, topN)
    ensures SortedByScore(r)
    ensures forall i :: 0 <= i < |r| ==> r[i] in results
    ensures forall k :: IsPrefix(WithScore(r, k), WithScore(results, k))
    ensures forall k :: |WithScore(r, k)| < |WithScore(results, k)| ==>
              forall i :: 0 <= i < |r| ==> r[i].matchScore >= k
  {
    var sorted := SortByScore(results);
    PermutationMembers(sorted, results);
    CutSortedResults(results, sorted, topN);
    SlicePrefix(sorted, topN)
  }

  /** A permutation has the same length and the same members. */
  lemma PermutationMembers(a: seq<MatchResult>, b: seq<MatchResult>)
    requires multiset(a) == multiset(b)
    ensures |a| == |b|
    ensures forall i :: 0 <= i < |a| ==> a[i] in b
  {
    assert |multiset(a)| == |multiset(b)|;
    forall i | 0 <= i < |a|
      ensures a[i] in b
    {
      assert a[i] in multiset(a);
    }
  }

  /** Cutting the stable sort of `results` keeps, for every score, the first
      entries of that score, and drops one only below every kept score. */
  lemma CutSortedResults(results: seq<MatchResult>, sorted: seq<MatchResult>, topN: int)
    requires SortedByScore(sorted)
    requires forall k :: WithScore(sorted, k) == WithScore(results, k)
    ensures forall k :: IsPrefix(WithScore(SlicePrefix(sorted, topN), k), WithScore(results, k))
    ensures forall k :: |WithScore(SlicePrefix(sorted, topN), k)| < |WithScore(results, k)| ==>
              forall i :: 0 <= i < |SlicePrefix(sorted, topN)| ==> SlicePrefix(sorted, topN)[i].matchScore >= k
  {
    var r := SlicePrefix(sorted, topN);
    forall k
      ensures IsPrefix(WithScore(r, k), WithScore(results, k))
      ensures |WithScore(r, k)| < |WithScore(results, k)| ==> forall i :: 0 <= i < |r| ==> r[i].matchScore >= k
    {
      PrefixWithScore(r, sorted, k);
    }
  }

  /** `get_top_matches_with_feedback(resume_skills, job_feed, pro_user, top_n)`. */
  function TopMatches(resumeSkills: seq<string>, feed: seq<Job>, pro: bool, topN: int): (r: seq<MatchResult>)
    ensures |r| == SliceLength(|feed|, topN)
    ensures SortedByScore(r)
    ensures forall i :: 0 <= i < |r| ==> ScoredFrom(r[i], resumeSkills, feed, pro)
    ensures forall k :: IsPrefix(WithScore(r, k), WithScore(Results(resumeSkills, feed, pro), k))
    ensures forall k :: |WithScore(r, k)| < |WithScore(Results(resumeSkills, feed, pro), k)| ==>
              forall i :: 0 <= i < |r| ==> r[i].matchScore >= k
  {
    var results := Results(resumeSkills, feed, pro);
    var r := RankResults(results, topN);
    FromFeed(resumeSkills, feed, pro, r);
    r
  }

  /** `x` is the scoring of some job of the feed. */
  ghost predicate ScoredFrom(x: MatchResult, resumeSkills: seq<string>, feed: seq<Job>, pro: bool)
  {
    exists j :: 0 <= j < |feed| && x == Evaluate(resumeSkills, feed[j], pro)
  }

  /** Every entry drawn from the scored feed is the scoring of some feed job. */
  lemma FromFeed(resumeSkills: seq<string>, feed: seq<Job>, pro: bool, ranked: seq<MatchResult>)
    requires forall i :: 0 <= i < |ranked| ==> ranked[i] in Results(resumeSkills, feed, pro)
    ensures forall i :: 0 <= i < |ranked| ==> ScoredFrom(ranked[i], resumeSkills, feed, pro)
  {
    forall i | 0 <= i < |ranked|
      ensures ScoredFrom(ranked[i], resumeSkills, feed, pro)
    {
      ScoredJobOf(resumeSkills, feed, pro, ranked[i]);
    }
  }

  /** A member of the scored feed is the scoring of one of its jobs. */
  lemma ScoredJobOf(resumeSkills: seq<string>, feed: seq<Job>, pro: bool, x: MatchResult)
    requires x in Results(resumeSkills, feed, pro)
    ensures ScoredFrom(x, resumeSkills, feed, pro)
  {
    var results := Results(resumeSkills, feed, pro);
    var j :| 0 <= j < |results| && results[j] == x;
    assert x == Evaluate(resumeSkills, feed[j], pro);
  }

  /** Cutting a score-sorted list keeps a prefix of each score's entries,
      and leaves an entry scored `k` out only when every kept entry scores
      at least `k`. */
  lemma {:induction false} PrefixWithScore(p: seq<MatchResult>, rs: seq<MatchResult>, k: int)
    requires SortedByScore(rs)
    requires IsPrefix(p, rs)
    ensures IsPrefix(WithScore(p, k), WithScore(rs, k))
    ensures |WithScore(p, k)| < |WithScore(rs, k)| ==> forall i :: 0 <= i < |p| ==> p[i].matchScore >= k
    decreases |p|
  {
    if |p| > 0 {
      assert p[1..] == rs[1..][..|p| - 1];
      PrefixWithScore(p[1..], rs[1..], k);
      if |WithScore(p, k)| < |WithScore(rs, k)| {
        var later := WithScore(rs[1..], k);
        assert |WithScore(p[1..], k)| < |later|;
        WithScoreMembers(rs[1..], k);
        assert later[0] in rs[1..] && later[0].matchScore == k;
        assert rs[0].matchScore >= k;
      }
    } else {
      assert WithScore(p, k) == [];
    }
  }

  /** `WithScore(rs, k)` lists entries of `rs`, each scored `k`. */
  lemma {:induction false} WithScoreMembers(rs: seq<MatchResult>, k: int)
    ensures forall y :: y in WithScore(rs, k) ==> y in rs && y.matchScore == k
    decreases |rs|
  {
    if |rs| > 0 {
      WithScoreMembers(rs[1..], k);
    }
  }

  /** A score-sorted arrangement is pinned down by its per-score orders: two
      sorted sequences that agree on `WithScore` for every score are equal.
      So the ranking is the one stable descending order of the results. */
  lemma {:induction false} StableSortUnique(a: seq<MatchResult>, b: seq<MatchResult>)
    requires SortedByScore(a) && SortedByScore(b)
    requires forall k :: WithScore(a, k) == WithScore(b, k)
    ensures a == b
    decreases |a| + |b|
  {
    if |a| == 0 || |b| == 0 {
      assert WithScore(a, 0) == WithScore(b, 0);
      assert |a| > 0 ==> WithScore(a, a[0].matchScore) != [];
      assert |b| > 0 ==> WithScore(b, b[0].matchScore) != [];
    } else {
      SameHead(a, b);
      TailsAgree(a, b);
      assert SortedByScore(a[1..]) && SortedByScore(b[1..]);
      StableSortUnique(a[1..], b[1..]);
      assert a == [a[0]] + a[1..] && b == [b[0]] + b[1..];
    }
  }

  /** Two non-empty sorted sequences with the same per-score orders start
      with the same entry: the highest score of one is the highest of the
      other, and its first entry opens both. */
  lemma SameHead(a: seq<MatchResult>, b: seq<MatchResult>)
    requires |a| > 0 && |b| > 0
    requires SortedByScore(a) && SortedByScore(b)
    requires forall k :: WithScore(a, k) == WithScore(b, k)
    ensures a[0] == b[0]
  {
    var m := a[0].matchScore;
    var n := b[0].matchScore;
    WithScoreMembers(a, n);
    WithScoreMembers(b, m);
    assert WithScore(a, n) != [];
    assert WithScore(b, m) != [];
    assert WithScore(a, n)[0] in a;
    assert WithScore(b, m)[0] in b;
    assert m == n;
    assert a[0] == WithScore(a, m)[0] == WithScore(b, m)[0] == b[0];
  }

  /** Removing a common first entry keeps the per-score orders equal. */
  lemma TailsAgree(a: seq<MatchResult>, b: seq<MatchResult>)
    requires |a| > 0 && |b| > 0 && a[0] == b[0]
    requires forall k :: WithScore(a, k) == WithScore(b, k)
    ensures forall k :: WithScore(a[1..], k) == WithScore(b[1..], k)
  {
    forall k
      ensures WithScore(a[1..], k) == WithScore(b[1..], k)
    {
      var h := if a[0].matchScore == k then [a[0]] else [];
      assert WithScore(a, k) == h + WithScore(a[1..], k);
      assert WithScore(b, k) == h + WithScore(b[1..], k);
      assert WithScore(a[1..], k) == WithScore(a, k)[|h|..];
    }
  }

  /** The top matches are the first entries of ANY stable descending order
      of the scored feed. */
  lemma TopMatchesIsStableRanking(resumeSkills: seq<string>, feed: seq<Job>, pro: bool, topN: int, ranked: seq<MatchResult>)
    requires SortedByScore(ranked)
    requires forall k :: WithScore(ranked, k) == WithScore(Results(resumeSkills, feed, pro), k)
    ensures TopMatches(resumeSkills, feed, pro, topN) == SlicePrefix(ranked, topN)
  {
    var results := Results(resumeSkills, feed, pro);
    StableSortUnique(SortByScore(results), ranked);
  }

  /** With no resume skills every score is 0, so the feed order decides:
      the result is the first `top_n` jobs of the feed. */
  lemma EmptyResumeKeepsFeedOrder(feed: seq<Job>, pro: bool, topN: int)
    ensures TopMatches([], feed, pro, topN) == SlicePrefix(Results([], feed, pro), topN)
  {
    var results := Results([], feed, pro);
    forall i | 0 <= i < |results|
      ensures results[i].matchScore == 0
    {
      NoResumeSkillsScoresZero(feed[i], pro);
    }
    TopMatchesIsStableRanking([], feed, pro, topN, results);
  }

  /** The defaults `pro_user=False, top_n=5`: at most five jobs, each
      showing at most two suggestions. */
  lemma DefaultCallShape(resumeSkills: seq<string>, feed: seq<Job>)
    ensures var r := TopMatches(resumeSkills, feed, false, DefaultTopN);
      && |r| == Min(5, |feed|)
      && forall i :: 0 <= i < |r| ==> |r[i].suggestions| <= 2
  {
  }
}
