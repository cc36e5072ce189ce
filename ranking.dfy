/** `results.sort(key=lambda x: x["relevance_score"], reverse=True)`: a stable
    sort by descending score. Python's sort keeps equal-keyed elements in
    their original order also when `reverse=True`; `SortDesc` is an insertion
    sort with that property, and the lemmas below prove it. */
module Ranking {
  import opened Records

  predicate SortedDesc(xs: seq<SearchResult>) {
    forall i, j :: 0 <= i < j < |xs| ==> xs[i].score >= xs[j].score
  }

  /** Places `x` after every element of `sorted` whose score is at least its own. */
  function InsertDesc(sorted: seq<SearchResult>, x: SearchResult): (r: seq<SearchResult>)
    ensures |r| == |sorted| + 1
    ensures multiset(r) == multiset(sorted) + multiset{x}
  {
    if sorted == [] then [x]
    else if sorted[0].score >= x.score then
      assert sorted == [sorted[0]] + sorted[1..];
      [sorted[0]] + InsertDesc(sorted[1..], x)
    else [x] + sorted
  }

  lemma {:induction false} InsertSorted(sorted: seq<SearchResult>, x: SearchResult)
    requires SortedDesc(sorted)
    ensures SortedDesc(InsertDesc(sorted, x))
  {
    if sorted != [] && sorted[0].score >= x.score {
      var rest := InsertDesc(sorted[1..], x);
      InsertSorted(sorted[1..], x);
      forall y | y in rest ensures sorted[0].score >= y.score {
        assert y in multiset(rest);
        assert y in multiset(sorted[1..]) || y == x;
      }
      assert InsertDesc(sorted, x) == [sorted[0]] + rest;
    }
  }

  /** The results in descending score order, ties in their original order. */
  function SortDesc(xs: seq<SearchResult>): (r: seq<SearchResult>)
    ensures |r| == |xs|
    ensures SortedDesc(r)
    ensures multiset(r) == multiset(xs)
  {
    if xs == [] then []
    else
      assert xs == xs[..|xs| - 1] + [xs[|xs| - 1]];
      InsertSorted(SortDesc(xs[..|xs| - 1]), xs[|xs| - 1]);
      InsertDesc(SortDesc(xs[..|xs| - 1]), xs[|xs| - 1])
  }

  /** The elements of `xs` with score `s`, in order. */
  function WithScore(xs: seq<SearchResult>, s: real): (tied: seq<SearchResult>) {
    if xs == [] then []
    else (if xs[0].score == s then [xs[0]] else []) + WithScore(xs[1..], s)
  }

  lemma {:induction false} WithScoreAppend(a: seq<SearchResult>, b: seq<SearchResult>, s: real)
    ensures WithScore(a + b, s) == WithScore(a, s) + WithScore(b, s)
  {
    if a == [] {
      assert a + b == b;
    } else {
      assert (a + b)[1..] == a[1..] + b;
      WithScoreAppend(a[1..], b, s);
    }
  }

  lemma {:induction false} NoneAbove(sorted: seq<SearchResult>, s: real)
    requires SortedDesc(sorted)
    requires sorted != [] ==> sorted[0].score < s
    ensures WithScore(sorted, s) == []
  {
    if sorted != [] {
      NoneAbove(sorted[1..], s);
    }
  }

  lemma {:induction false} InsertKeepsTies(sorted: seq<SearchResult>, x: SearchResult, s: real)
    requires SortedDesc(sorted)
    ensures WithScore(InsertDesc(sorted, x), s) == WithScore(sorted, s) + WithScore([x], s)
  {
    if sorted == [] {
    } else if sorted[0].score >= x.score {
      var r := InsertDesc(sorted, x);
      assert r[1..] == InsertDesc(sorted[1..], x);
      InsertKeepsTies(sorted[1..], x, s);
    } else {
      var r := [x] + sorted;
      assert r[1..] == sorted;
      if s == x.score {
        NoneAbove(sorted, s);
      }
    }
  }

  /** Stability: for every score, the results with that score appear in the
      sorted list in exactly the order they had before sorting. */
  lemma {:induction false} SortIsStable(xs: seq<SearchResult>, s: real)
    ensures WithScore(SortDesc(xs), s) == WithScore(xs, s)
  {
    if xs != [] {
      var init, last := xs[..|xs| - 1], xs[|xs| - 1];
      SortIsStable(init, s);
      InsertKeepsTies(SortDesc(init), last, s);
      assert xs == init + [last];
      WithScoreAppend(init, [last], s);
    }
  }
}
