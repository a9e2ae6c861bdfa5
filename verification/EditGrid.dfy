/**
 The edit grid of two sequences. A point (x, y) may lie beyond the far corner,
 as it may in the forward loop of `myers_diff`: past an end only unmatched steps remain.

 `D(a, b, x, y)` is the fewest unmatched steps on a path from the origin to (x, y),
 stated through the longest common subsequence of the part inside the grid.
 */
module EditGrid {
  import opened Common
  import opened Lcs

  function D<T(==)>(a: seq<T>, b: seq<T>, x: nat, y: nat): int {
    x + y - 2 * L(a, b, Min(x, |a|), Min(y, |b|))
  }

  function EditDistance<T(==)>(a: seq<T>, b: seq<T>): int {
    D(a, b, |a|, |b|)
  }

  predicate Matches<T(==)>(a: seq<T>, b: seq<T>, x: nat, y: nat) {
    x < |a| && y < |b| && a[x] == b[y]
  }

  lemma Bounds<T>(a: seq<T>, b: seq<T>, x: nat, y: nat)
    ensures D(a, b, x, y) >= x - y && D(a, b, x, y) >= y - x
    ensures 0 <= D(a, b, x, y) <= x + y
  {
    Lcs.Bounds(a, b, Min(x, |a|), Min(y, |b|));
  }

  /** One step right or down changes the cost by exactly one. */
  lemma StraightStep<T>(a: seq<T>, b: seq<T>, x: nat, y: nat)
    ensures D(a, b, x + 1, y) == D(a, b, x, y) + 1 || D(a, b, x + 1, y) == D(a, b, x, y) - 1
    ensures D(a, b, x, y + 1) == D(a, b, x, y) + 1 || D(a, b, x, y + 1) == D(a, b, x, y) - 1
  {
    Steps(a, b, Min(x, |a|), Min(y, |b|));
  }

  lemma MatchStep<T>(a: seq<T>, b: seq<T>, x: nat, y: nat)
    requires Matches(a, b, x, y)
    ensures D(a, b, x + 1, y + 1) == D(a, b, x, y)
  {
  }

  /** Without a match, the cost of the diagonal neighbour comes from right or down. */
  lemma MismatchStep<T>(a: seq<T>, b: seq<T>, x: nat, y: nat)
    requires !Matches(a, b, x, y)
    ensures D(a, b, x + 1, y + 1) == 1 + Min(D(a, b, x + 1, y), D(a, b, x, y + 1))
  {
    var i, j := Min(x, |a|), Min(y, |b|);
    Steps(a, b, i, j);
  }

  lemma DiagonalStep<T>(a: seq<T>, b: seq<T>, x: nat, y: nat)
    ensures D(a, b, x + 1, y + 1) >= D(a, b, x, y)
  {
    if !Matches(a, b, x, y) {
      MismatchStep(a, b, x, y);
      StraightStep(a, b, x, y);
    }
  }

  /** Cost never falls along a diagonal. */
  lemma {:induction false} DiagonalMonotone<T>(a: seq<T>, b: seq<T>, x: nat, y: nat, n: nat)
    ensures D(a, b, x + n, y + n) >= D(a, b, x, y)
    decreases n
  {
    if n > 0 {
      DiagonalMonotone(a, b, x, y, n - 1);
      DiagonalStep(a, b, x + n - 1, y + n - 1);
    }
  }

  /** x is the furthest point of diagonal k (the points with x - y == k) that d steps reach. */
  ghost predicate Furthest<T>(a: seq<T>, b: seq<T>, d: int, k: int, x: int) {
    && 0 <= x && 0 <= x - k
    && D(a, b, x, x - k) <= d
    && D(a, b, x + 1, x - k + 1) > d
  }

  lemma PastFurthest<T>(a: seq<T>, b: seq<T>, d: int, k: int, f: int, x: int)
    requires Furthest(a, b, d, k, f) && x > f
    ensures D(a, b, x, x - k) > d
  {
    DiagonalMonotone(a, b, f + 1, f - k + 1, x - f - 1);
  }

  lemma WithinFurthest<T>(a: seq<T>, b: seq<T>, d: int, k: int, f: int, x: nat)
    requires Furthest(a, b, d, k, f) && x - k >= 0 && D(a, b, x, x - k) <= d
    ensures x <= f
  {
    if x > f { PastFurthest(a, b, d, k, f, x); }
  }

  /**
   Where the loop of step d starts on diagonal k: v holds the furthest points of step d - 1,
   and nothing else is known of it.
   */
  ghost predicate Source<T>(a: seq<T>, b: seq<T>, d: int, k: int, left: int, right: int) {
    && (d > 0 && k > -d ==> Furthest(a, b, d - 1, k - 1, left))
    && (d > 0 && k < d ==> Furthest(a, b, d - 1, k + 1, right))
    && (d == 0 ==> right == 0)
  }

  function StartX(d: int, k: int, left: int, right: int): int {
    if k == -d then right
    else if k == d then left + 1
    else if left < right then right
    else left + 1
  }

  lemma StartReachable<T>(a: seq<T>, b: seq<T>, d: int, k: int, left: int, right: int)
    requires -d <= k <= d && Source(a, b, d, k, left, right)
    ensures var x := StartX(d, k, left, right);
      x >= 0 && x - k >= 0 && D(a, b, x, x - k) <= d
  {
    var x := StartX(d, k, left, right);
    if d > 0 {
      if k == -d || (k != d && left < right) {
        StraightStep(a, b, right, right - k - 1);
      } else {
        StraightStep(a, b, left, left - k + 1);
      }
    }
  }

  /** Beyond the starting point, both neighbours of the next diagonal cell cost at least d. */
  lemma RightNeighbourCost<T>(a: seq<T>, b: seq<T>, d: int, k: int, left: int, right: int, x: int)
    requires -d <= k <= d && Source(a, b, d, k, left, right)
    requires x >= StartX(d, k, left, right) && x >= 0 && x - k >= 0
    ensures D(a, b, x + 1, x - k) >= d
  {
    if d > 0 && k < d {
      assert x + 1 - (k + 1) == x - k;
      PastFurthest(a, b, d - 1, k + 1, right, x + 1);
    } else {
      Bounds(a, b, x + 1, x - k);
    }
  }

  lemma LowerNeighbourCost<T>(a: seq<T>, b: seq<T>, d: int, k: int, left: int, right: int, x: int)
    requires -d <= k <= d && Source(a, b, d, k, left, right)
    requires x >= StartX(d, k, left, right) && x >= 0 && x - k >= 0
    ensures D(a, b, x, x - k + 1) >= d
  {
    if d > 0 && k > -d {
      assert x - (k - 1) == x - k + 1;
      PastFurthest(a, b, d - 1, k - 1, left, x);
    } else {
      Bounds(a, b, x, x - k + 1);
    }
  }

  /** Beyond the starting point, a mismatch on diagonal k costs more than d. */
  lemma BlockedBeyondStart<T>(a: seq<T>, b: seq<T>, d: int, k: int, left: int, right: int, x: int)
    requires -d <= k <= d && Source(a, b, d, k, left, right)
    requires x >= StartX(d, k, left, right) && x >= 0 && x - k >= 0
    requires !Matches(a, b, x, x - k)
    ensures D(a, b, x + 1, x - k + 1) > d
  {
    RightNeighbourCost(a, b, d, k, left, right, x);
    LowerNeighbourCost(a, b, d, k, left, right, x);
    MismatchStep(a, b, x, x - k);
  }

  /** Sliding from the start over matches to the first mismatch ends at the furthest point. */
  lemma SlideIsFurthest<T>(a: seq<T>, b: seq<T>, d: int, k: int, left: int, right: int, x: int)
    requires -d <= k <= d && Source(a, b, d, k, left, right)
    requires x >= StartX(d, k, left, right) && x >= 0 && x - k >= 0
    requires D(a, b, x, x - k) <= d && !Matches(a, b, x, x - k)
    ensures Furthest(a, b, d, k, x)
  {
    BlockedBeyondStart(a, b, d, k, left, right, x);
  }

  /** Every cell between the start and a reachable point of the diagonal is a match. */
  lemma SlideWasMatches<T>(a: seq<T>, b: seq<T>, d: int, k: int, left: int, right: int, x: int, f: int)
    requires -d <= k <= d && Source(a, b, d, k, left, right)
    requires StartX(d, k, left, right) <= x < f && x >= 0 && x - k >= 0
    requires D(a, b, f, f - k) <= d
    ensures Matches(a, b, x, x - k)
  {
    if !Matches(a, b, x, x - k) {
      BlockedBeyondStart(a, b, d, k, left, right, x);
      DiagonalMonotone(a, b, x + 1, x - k + 1, f - x - 1);
    }
  }

  /** Moving k past the corner costs every overshooting step on top of the edit distance. */
  lemma Overshoot<T>(a: seq<T>, b: seq<T>, x: nat, y: nat)
    requires x >= |a| && y >= |b|
    ensures D(a, b, x, y) == EditDistance(a, b) + (x - |a|) + (y - |b|)
  {
  }

  /** D has the parity of the diagonal. */
  lemma Parity<T>(a: seq<T>, b: seq<T>, x: nat, y: nat)
    ensures (D(a, b, x, y) + x - y) % 2 == 0
  {
    var l := L(a, b, Min(x, |a|), Min(y, |b|));
    assert D(a, b, x, y) + x - y == 2 * (x - l);
  }

  /**
   If the corner is reachable in d steps, the furthest point of its diagonal passes the test
   of the loop, so a step that finds no such point proves the corner is more than d away.
   */
  lemma CornerStops<T>(a: seq<T>, b: seq<T>, d: int, f: int)
    requires EditDistance(a, b) <= d && Furthest(a, b, d, |a| - |b|, f)
    ensures f >= |a| && f - (|a| - |b|) >= |b|
  {
    WithinFurthest(a, b, d, |a| - |b|, f, |a|);
  }

  lemma CornerDiagonal<T>(a: seq<T>, b: seq<T>)
    ensures 0 <= EditDistance(a, b) <= |a| + |b|
    ensures -EditDistance(a, b) <= |a| - |b| <= EditDistance(a, b)
    ensures (EditDistance(a, b) + |a| - |b|) % 2 == 0
  {
    Bounds(a, b, |a|, |b|);
    Parity(a, b, |a|, |b|);
  }
}
