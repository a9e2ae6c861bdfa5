/**
 The patience-sorting pass of `lcs_by_order_key`: a longest subsequence of index pairs that
 increases strictly in the second component, with predecessor links.
 */
module Patience {
  import opened Common
  import opened Sorting

  type Pair = (nat, nat)

  /** Ascending in the first component, descending in the second among equal firsts. */
  predicate PairLe(x: Pair, y: Pair) {
    x.0 < y.0 || (x.0 == y.0 && x.1 >= y.1)
  }

  lemma PairOrdering()
    ensures Ordering(PairLe)
  {
  }

  /** First position whose value is not below j. */
  function PartitionPoint(s: seq<nat>, j: nat): (pos: nat)
    ensures pos <= |s|
    ensures forall t | 0 <= t < pos :: s[t] < j
    ensures pos < |s| ==> s[pos] >= j
  {
    if s == [] || s[0] >= j then 0 else 1 + PartitionPoint(s[1..], j)
  }

  ghost predicate StrictlyIncreasing(s: seq<nat>) {
    forall t, u | 0 <= t < u < |s| :: s[t] < s[u]
  }

  /** `tails[t]` is the second component of the pair `tailsIdx[t]`, which has rank t. */
  ghost predicate TailsOk(p: seq<Pair>, rank: seq<nat>, tails: seq<nat>, tailsIdx: seq<nat>) {
    && |tails| == |tailsIdx| && |rank| <= |p|
    && StrictlyIncreasing(tails)
    && (forall t | 0 <= t < |tails| :: tailsIdx[t] < |rank| && p[tailsIdx[t]].1 == tails[t] && rank[tailsIdx[t]] == t)
  }

  /** A tail is never above a pair of its rank: ranks only ever get better tails. */
  ghost predicate RanksOk(p: seq<Pair>, rank: seq<nat>, tails: seq<nat>) {
    && |rank| <= |p|
    && (forall q | 0 <= q < |rank| :: rank[q] < |tails| && tails[rank[q]] <= p[q].1)
  }

  /** A pair that can follow another in the subsequence has a higher rank. */
  ghost predicate RanksGrow(p: seq<Pair>, rank: seq<nat>) {
    && |rank| <= |p|
    && (forall q, r | 0 <= q < r < |rank| && p[q].1 < p[r].1 :: rank[q] < rank[r])
  }

  /** The predecessor link of a pair leads to a pair of the rank below, or nowhere from rank 0. */
  ghost predicate LinkOk(p: seq<Pair>, rank: seq<nat>, prev: seq<int>, q: nat) {
    && q < |rank| <= |p| && q < |prev|
    && (rank[q] == 0 ==> prev[q] == -1)
    && (rank[q] > 0 ==> 0 <= prev[q] < q && rank[prev[q]] == rank[q] - 1 && p[prev[q]].1 < p[q].1)
  }

  ghost predicate LinksOk(p: seq<Pair>, rank: seq<nat>, prev: seq<int>) {
    forall q: nat | q < |rank| :: LinkOk(p, rank, prev, q)
  }

  /** Write x at position pos, at most one past the end. */
  function Put(s: seq<nat>, pos: nat, x: nat): (r: seq<nat>)
    requires pos <= |s|
    ensures |r| == Max(|s|, pos + 1) && r[pos] == x
    ensures forall t | 0 <= t < |s| && t != pos :: r[t] == s[t]
  {
    if pos == |s| then s + [x] else s[pos := x]
  }

  /** One turn of the loop: pair number |rank| takes position pos. */
  lemma TailsStep(p: seq<Pair>, rank: seq<nat>, tails: seq<nat>, tailsIdx: seq<nat>, pos: nat)
    requires TailsOk(p, rank, tails, tailsIdx)
    requires |rank| < |p| && pos == PartitionPoint(tails, p[|rank|].1)
    ensures TailsOk(p, rank + [pos], Put(tails, pos, p[|rank|].1), Put(tailsIdx, pos, |rank|))
  {
    var rank', tails', idx' := rank + [pos], Put(tails, pos, p[|rank|].1), Put(tailsIdx, pos, |rank|);
    forall t, u | 0 <= t < u < |tails'|
      ensures tails'[t] < tails'[u]
    {
      assert u != pos ==> u < |tails|;
      assert t < |tails|;
    }
    forall t | 0 <= t < |tails'|
      ensures idx'[t] < |rank'| && p[idx'[t]].1 == tails'[t] && rank'[idx'[t]] == t
    {
      assert t != pos ==> idx'[t] == tailsIdx[t] && tails'[t] == tails[t];
    }
  }

  lemma RanksStep(p: seq<Pair>, rank: seq<nat>, tails: seq<nat>, pos: nat)
    requires RanksOk(p, rank, tails)
    requires |rank| < |p| && pos == PartitionPoint(tails, p[|rank|].1)
    ensures RanksOk(p, rank + [pos], Put(tails, pos, p[|rank|].1))
  {
    var rank', tails' := rank + [pos], Put(tails, pos, p[|rank|].1);
    forall q | 0 <= q < |rank'|
      ensures rank'[q] < |tails'| && tails'[rank'[q]] <= p[q].1
    {
      if q < |rank| {
        assert rank'[q] == rank[q] && tails[rank[q]] <= p[q].1;
      }
    }
  }

  lemma GrowStep(p: seq<Pair>, rank: seq<nat>, tails: seq<nat>, pos: nat)
    requires RanksOk(p, rank, tails) && RanksGrow(p, rank)
    requires |rank| < |p| && pos == PartitionPoint(tails, p[|rank|].1)
    requires StrictlyIncreasing(tails)
    ensures RanksGrow(p, rank + [pos])
  {
    var rank' := rank + [pos];
    forall q, r | 0 <= q < r < |rank'| && p[q].1 < p[r].1
      ensures rank'[q] < rank'[r]
    {
      if r == |rank| {
        assert tails[rank[q]] <= p[q].1 < p[r].1;
        assert rank[q] < pos;
      }
    }
  }

  lemma LinkStep(p: seq<Pair>, rank: seq<nat>, prev: seq<int>, pos: nat, link: int)
    requires |rank| < |p| == |prev| && LinksOk(p, rank, prev)
    requires pos == 0 ==> link == -1
    requires pos > 0 ==> 0 <= link < |rank| && rank[link] == pos - 1 && p[link].1 < p[|rank|].1
    ensures LinksOk(p, rank + [pos], prev[|rank| := link])
  {
    var rank', prev' := rank + [pos], prev[|rank| := link];
    forall q: nat | q < |rank'|
      ensures LinkOk(p, rank', prev', q)
    {
      if q < |rank| { assert LinkOk(p, rank, prev, q); }
    }
  }

  /** A chain of positions in p, later pairs first, as the links are followed. */
  ghost predicate Chain(chain: seq<Pair>) {
    forall s, t | 0 <= s < t < |chain| :: chain[t].0 < chain[s].0 && chain[t].1 < chain[s].1
  }

  /**
   The rank of a pair bounds every strictly increasing sequence that ends in it, so the number
   of tails bounds them all.
   */
  lemma {:induction false} RankBounds(p: seq<Pair>, rank: seq<nat>, m: seq<Pair>, k: nat) returns (q: nat)
    requires Sorted(PairLe, p) && |rank| == |p| && RanksGrow(p, rank)
    requires k < |m| && (forall t | 0 <= t < |m| :: m[t] in p)
    requires forall s, t | 0 <= s < t < |m| :: m[s].0 < m[t].0 && m[s].1 < m[t].1
    ensures q < |p| && p[q] == m[k] && rank[q] >= k
    decreases k
  {
    q :| 0 <= q < |p| && p[q] == m[k];
    if k > 0 {
      var q' := RankBounds(p, rank, m, k - 1);
      assert m[k - 1].0 < m[k].0 && m[k - 1].1 < m[k].1;
      assert PairLe(p[q'], p[q]) && !PairLe(p[q], p[q']);
      assert q' < q;
    }
  }

  /** The state of the pass after all pairs: everything the result relies on. */
  ghost predicate Finished(p: seq<Pair>, rank: seq<nat>, tails: seq<nat>, tailsIdx: seq<nat>, prev: seq<int>) {
    && |rank| == |p| == |prev|
    && TailsOk(p, rank, tails, tailsIdx) && RanksOk(p, rank, tails) && RanksGrow(p, rank)
    && LinksOk(p, rank, prev)
  }

  /** The forward pass over the sorted pairs. */
  method Build(p: seq<Pair>, prev: array<int>) returns (tails: seq<nat>, tailsIdx: seq<nat>, ghost rank: seq<nat>)
    requires prev.Length == |p|
    modifies prev
    ensures Finished(p, rank, tails, tailsIdx, prev[..])
  {
    tails, tailsIdx, rank := [], [], [];
    for idx := 0 to |p|
      invariant |rank| == idx
      invariant TailsOk(p, rank, tails, tailsIdx) && RanksOk(p, rank, tails) && RanksGrow(p, rank)
      invariant LinksOk(p, rank, prev[..])
    {
      var j := p[idx].1;
      var pos := PartitionPoint(tails, j);
      TailsStep(p, rank, tails, tailsIdx, pos);
      RanksStep(p, rank, tails, pos);
      GrowStep(p, rank, tails, pos);
      var link := if pos > 0 then tailsIdx[pos - 1] else -1;
      LinkStep(p, rank, prev[..], pos, link);
      tails := Put(tails, pos, j);
      tailsIdx := Put(tailsIdx, pos, idx);
      ghost var before := prev[..];
      prev[idx] := link;
      assert prev[..] == before[idx := link];
      rank := rank + [pos];
    }
  }

  /** Follow the links from the last tail; the pairs come out last first. */
  method Follow(p: seq<Pair>, prev: seq<int>, start: int, ghost rank: seq<nat>) returns (result: seq<Pair>)
    requires Sorted(PairLe, p) && |rank| == |p| == |prev| && LinksOk(p, rank, prev)
    requires -1 <= start < |p|
    ensures |result| == if start >= 0 then rank[start] + 1 else 0
    ensures Chain(result) && forall t | 0 <= t < |result| :: result[t] in p
  {
    result := [];
    var cur := start;
    while cur >= 0
      invariant -1 <= cur < |p|
      invariant |result| + (if cur >= 0 then rank[cur] + 1 else 0) == if start >= 0 then rank[start] + 1 else 0
      invariant Chain(result) && forall t | 0 <= t < |result| :: result[t] in p
      invariant cur >= 0 ==> forall t | 0 <= t < |result| :: p[cur].0 < result[t].0 && p[cur].1 < result[t].1
      decreases cur
    {
      assert LinkOk(p, rank, prev, cur);
      assert prev[cur] >= 0 ==> PairLe(p[prev[cur]], p[cur]);
      result := result + [p[cur]];
      cur := prev[cur];
    }
  }
}
