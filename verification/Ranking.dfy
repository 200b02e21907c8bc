/** `ranked.sort(key=lambda item: (-item[0], item[1]))` followed by a slice: the top-k pattern shared by
    text search, vector search and reranking. */
module Ranking {
  import opened Ordering

  datatype Ranked<+T> = Ranked(score: real, index: nat, result: T)

  predicate RankLeq<T>(a: Ranked<T>, b: Ranked<T>) {
    a.score > b.score || (a.score == b.score && a.index <= b.index)
  }

  predicate ScoreLeq<T>(a: Ranked<T>, b: Ranked<T>) { a.score >= b.score }

  function Top<T>(ranked: seq<Ranked<T>>, limit: nat): (r: seq<Ranked<T>>)
    ensures |r| <= limit
  {
    var sorted := SortBy(ranked, RankLeq);
    if |sorted| <= limit then sorted else sorted[..limit]
  }

  function Results<T>(ranked: seq<Ranked<T>>): (r: seq<T>)
    ensures |r| == |ranked|
    ensures forall i :: 0 <= i < |r| ==> r[i] == ranked[i].result
  {
    seq(|ranked|, i requires 0 <= i < |ranked| => ranked[i].result)
  }

  lemma RankOrder<T(!new)>()
    ensures TotalPreorder(RankLeq<T>) && TotalPreorder(ScoreLeq<T>)
  {
  }

  /** Indices count upwards along the list, as `enumerate` hands them out. */
  ghost predicate Enumerated<T>(ranked: seq<Ranked<T>>) {
    forall i, j :: 0 <= i < j < |ranked| ==> ranked[i].index < ranked[j].index
  }

  lemma EnumeratedCons<T(!new)>(h: Ranked<T>, rest: seq<Ranked<T>>)
    requires Enumerated(rest) && forall x :: x in rest ==> h.index < x.index
    ensures Enumerated([h] + rest)
  {
  }

  /** The selection keeps the best: what is left out never outranks what is returned, the selection is in
      rank order, and nothing is lost or invented. */
  lemma TopIsBest<T(!new)>(ranked: seq<Ranked<T>>, limit: nat) returns (omitted: seq<Ranked<T>>)
    ensures multiset(Top(ranked, limit)) + multiset(omitted) == multiset(ranked)
    ensures SortedBy(Top(ranked, limit), RankLeq)
    ensures |ranked| <= limit ==> omitted == []
    ensures |ranked| > limit ==> |Top(ranked, limit)| == limit
    ensures forall a, b :: a in Top(ranked, limit) && b in omitted ==> RankLeq(a, b)
  {
    var sorted := SortBy(ranked, RankLeq);
    RankOrder<T>();
    SortByPermutes(ranked, RankLeq);
    SortBySorted(ranked, RankLeq);
    omitted := sorted[|Top(ranked, limit)|..];
    assert sorted == Top(ranked, limit) + omitted;
  }

  lemma TopMember<T(!new)>(ranked: seq<Ranked<T>>, limit: nat, i: nat)
    requires i < |Top(ranked, limit)|
    ensures Top(ranked, limit)[i] in ranked
  {
    SortByElements(ranked, RankLeq, Top(ranked, limit)[i]);
    assert Top(ranked, limit)[i] == SortBy(ranked, RankLeq)[i];
  }

  /** If a candidate is not returned, then the limit is reached and everything returned outranks it. */
  lemma TopKeepsBest<T(!new)>(ranked: seq<Ranked<T>>, limit: nat, h: Ranked<T>)
    requires h in ranked && h !in Top(ranked, limit)
    ensures |Top(ranked, limit)| == limit
    ensures forall i :: 0 <= i < |Top(ranked, limit)| ==> RankLeq(Top(ranked, limit)[i], h)
  {
    var sorted := SortBy(ranked, RankLeq);
    RankOrder<T>();
    SortBySorted(ranked, RankLeq);
    SortByElements(ranked, RankLeq, h);
    var j :| 0 <= j < |sorted| && sorted[j] == h;
    assert forall k :: 0 <= k < |Top(ranked, limit)| ==> Top(ranked, limit)[k] == sorted[k];
    assert j >= |Top(ranked, limit)|;
  }

  /** The selection has as many elements as there are, up to the limit. */
  lemma TopLength<T>(ranked: seq<Ranked<T>>, limit: nat)
    ensures |Top(ranked, limit)| == if |ranked| <= limit then |ranked| else limit
  {
    SortByPermutes(ranked, RankLeq);
  }

  /** A limit that is not positive lets nothing through. */
  function Cap(limit: int): (n: nat) { if limit < 0 then 0 else limit }

  lemma {:induction false} InsertAgrees<T(!new)>(x: Ranked<T>, xs: seq<Ranked<T>>)
    requires forall y :: y in xs ==> x.index < y.index
    ensures InsertBy(x, xs, RankLeq) == InsertBy(x, xs, ScoreLeq)
  {
    if xs != [] { InsertAgrees(x, xs[1..]); }
  }

  /** Breaking ties by the running index is the same as a stable sort by descending score. */
  lemma {:induction false} RankIsStableScoreSort<T(!new)>(ranked: seq<Ranked<T>>)
    requires Enumerated(ranked)
    ensures SortBy(ranked, RankLeq) == SortBy(ranked, ScoreLeq)
  {
    if ranked == [] {
    } else {
      RankIsStableScoreSort(ranked[1..]);
      var rest := SortBy(ranked[1..], ScoreLeq);
      forall y | y in rest ensures ranked[0].index < y.index { SortByElements(ranked[1..], ScoreLeq, y); }
      InsertAgrees(ranked[0], rest);
    }
  }
}
