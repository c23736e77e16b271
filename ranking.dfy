/** Ranking corpus positions by similarity score: the
    `sims.argsort()[::-1][:k]` step of the few-shot retriever. The scores
    themselves are inputs (one per corpus entry). */
module Ranking {

  function Min(a: int, b: int): int {
    if a <= b then a else b
  }

  /** Every position in `order` is a valid index into a score vector of length `n`. */
  predicate InRange(order: seq<int>, n: int) {
    forall j :: 0 <= j < |order| ==> 0 <= order[j] < n
  }

  predicate Distinct(order: seq<int>) {
    forall a, b :: 0 <= a < b < |order| ==> order[a] != order[b]
  }

  /** The positions in `order` have non-increasing scores. */
  predicate NonIncreasing(scores: seq<real>, order: seq<int>)
    requires InRange(order, |scores|)
  {
    forall a, b :: 0 <= a < b < |order| ==> scores[order[a]] >= scores[order[b]]
  }

  /** `order` lists every position of `scores` once, highest score first.
      Nothing is said about the order among equal scores. */
  predicate IsRanking(scores: seq<real>, order: seq<int>) {
    && |order| == |scores|
    && InRange(order, |scores|)
    && Distinct(order)
    && NonIncreasing(scores, order)
    && (forall i :: 0 <= i < |scores| ==> i in order)
  }

  /** Inserts position `i` into a ranked list, after every position whose
      score is at least as high. */
  function Insert(scores: seq<real>, order: seq<int>, i: int): (r: seq<int>)
    requires 0 <= i < |scores| && InRange(order, |scores|) && NonIncreasing(scores, order)
    requires Distinct(order) && i !in order
    ensures |r| == |order| + 1
    ensures forall x :: x in r <==> x in order || x == i
    ensures InRange(r, |scores|) && Distinct(r) && NonIncreasing(scores, r)
    decreases |order|
  {
    if order == [] then [i]
    else if scores[order[0]] < scores[i] then [i] + order
    else
      var tail := Insert(scores, order[1..], i);
      assert forall b :: 0 <= b < |tail| ==> tail[b] in order[1..] || tail[b] == i;
      [order[0]] + tail
  }

  /** Ranks the positions `0 .. n-1` of `scores`. */
  function RankPrefix(scores: seq<real>, n: nat): (order: seq<int>)
    requires n <= |scores|
    ensures |order| == n
    ensures InRange(order, |scores|) && Distinct(order) && NonIncreasing(scores, order)
    ensures forall x :: x in order <==> 0 <= x < n
  {
    if n == 0 then [] else Insert(scores, RankPrefix(scores, n - 1), n - 1)
  }

  /** `sims.argsort()[::-1]`: all positions, highest score first. Ties are
      broken by lower position first; nothing else in this model depends on
      that choice. */
  function RankDescending(scores: seq<real>): (order: seq<int>)
    ensures IsRanking(scores, order)
  {
    RankPrefix(scores, |scores|)
  }

  /** The first `m` entries of any ranking are distinct valid positions in
      non-increasing score order, and no position left out scores higher
      than any position taken. */
  lemma RankingPrefix(scores: seq<real>, order: seq<int>, m: nat)
    requires IsRanking(scores, order) && m <= |order|
    ensures InRange(order[..m], |scores|) && Distinct(order[..m])
    ensures NonIncreasing(scores, order[..m])
    ensures forall i, j :: 0 <= i < |scores| && i !in order[..m] && 0 <= j < m ==> scores[i] <= scores[order[j]]
  {
    forall i, j | 0 <= i < |scores| && i !in order[..m] && 0 <= j < m
      ensures scores[i] <= scores[order[j]]
    {
      assert i in order;
      var p :| 0 <= p < |order| && order[p] == i;
      assert p >= m;
    }
  }

  /** `sims.argsort()[::-1][:k]`: the positions of the top `k` scores. */
  function TopPositions(scores: seq<real>, k: nat): (idx: seq<int>)
    ensures |idx| == Min(k, |scores|)
    ensures InRange(idx, |scores|) && Distinct(idx)
    ensures NonIncreasing(scores, idx)
    ensures forall i, j :: 0 <= i < |scores| && i !in idx && 0 <= j < |idx| ==> scores[i] <= scores[idx[j]]
  {
    var order := RankDescending(scores);
    RankingPrefix(scores, order, Min(k, |scores|));
    order[..Min(k, |scores|)]
  }
}
