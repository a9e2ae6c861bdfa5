/**
 Block alignment of `snapshot.rs`: the hash-indexed longest common subsequence of order keys
 and its dynamic-programming fallback.
 */
module BlockAlignment {
  import opened Common
  import opened Lcs
  import opened Patience
  import opened Sorting

  datatype Block = Block(id: string, documentId: string, orderKey: string, contentHash: string, plainText: string)

  function Keys(blocks: seq<Block>): (keys: seq<string>)
    ensures |keys| == |blocks|
    ensures forall i | 0 <= i < |blocks| :: keys[i] == blocks[i].orderKey
  {
    seq(|blocks|, i requires 0 <= i < |blocks| => blocks[i].orderKey)
  }

  /** Every match is between equal keys, and every equal pair is there. */
  ghost predicate AllMatches(a: seq<string>, b: seq<string>, p: seq<Pair>) {
    && (forall t | 0 <= t < |p| :: p[t].0 < |a| && p[t].1 < |b| && a[p[t].0] == b[p[t].1])
    && (forall i: nat, j: nat | i < |a| && j < |b| && a[i] == b[j] :: (i, j) in p)
  }

  /** The index maps a key to the positions it has among the first n elements. */
  ghost predicate Indexed(b: seq<string>, n: nat, index: map<string, seq<nat>>) {
    && n <= |b|
    && (forall key, t | key in index && 0 <= t < |index[key]| :: index[key][t] < n && b[index[key][t]] == key)
    && (forall j: nat | j < n :: b[j] in index && j in index[b[j]])
  }

  lemma IndexGrows(b: seq<string>, j: nat, index: map<string, seq<nat>>)
    requires Indexed(b, j, index) && j < |b|
    ensures Indexed(b, j + 1, index[b[j] := (if b[j] in index then index[b[j]] else []) + [j]])
  {
    var known := if b[j] in index then index[b[j]] else [];
    var index' := index[b[j] := known + [j]];
    forall k: nat | k < j + 1
      ensures b[k] in index' && k in index'[b[k]]
    {
      if k == j {
        assert index'[b[j]][|known|] == j;
      } else {
        assert k in index[b[k]];
      }
    }
  }

  /** The positions of every key are listed in order, so each is listed once. */
  ghost predicate InOrder(index: map<string, seq<nat>>) {
    forall key | key in index :: forall t, u | 0 <= t < u < |index[key]| :: index[key][t] < index[key][u]
  }

  lemma OrderGrows(b: seq<string>, j: nat, index: map<string, seq<nat>>)
    requires Indexed(b, j, index) && InOrder(index) && j < |b|
    ensures InOrder(index[b[j] := (if b[j] in index then index[b[j]] else []) + [j]])
  {
    if b[j] in index {
      var known := index[b[j]];
      forall t | 0 <= t < |known| ensures known[t] < j { assert known[t] in known; }
    }
  }

  method BuildIndex(b: seq<Block>) returns (index: map<string, seq<nat>>)
    ensures Indexed(Keys(b), |b|, index) && InOrder(index)
  {
    index := map[];
    for j := 0 to |b|
      invariant Indexed(Keys(b), j, index) && InOrder(index)
    {
      IndexGrows(Keys(b), j, index);
      OrderGrows(Keys(b), j, index);
      var key := b[j].orderKey;
      index := index[key := (if key in index then index[key] else []) + [j]];
    }
  }

  /** The pairs of the first n elements of a. */
  ghost predicate MatchesOf(a: seq<string>, b: seq<string>, n: nat, p: seq<Pair>) {
    && n <= |a|
    && (forall t | 0 <= t < |p| :: p[t].0 < n && p[t].1 < |b| && a[p[t].0] == b[p[t].1])
    && (forall i: nat, j: nat | i < n && j < |b| && a[i] == b[j] :: (i, j) in p)
  }

  /** The pairs that row i adds. */
  function Row(i: nat, indices: seq<nat>): (row: seq<Pair>)
    ensures |row| == |indices|
    ensures forall t | 0 <= t < |row| :: row[t] == (i, indices[t])
  {
    seq(|indices|, t requires 0 <= t < |indices| => (i, indices[t]))
  }

  lemma RowAdded(a: seq<string>, b: seq<string>, index: map<string, seq<nat>>, i: nat, p: seq<Pair>)
    requires Indexed(b, |b|, index) && i < |a| && MatchesOf(a, b, i, p)
    ensures MatchesOf(a, b, i + 1, p + if a[i] in index then Row(i, index[a[i]]) else [])
  {
    var row := if a[i] in index then Row(i, index[a[i]]) else [];
    forall k: nat, j: nat | k < i + 1 && j < |b| && a[k] == b[j]
      ensures (k, j) in p + row
    {
      if k < i {
        assert (k, j) in p;
      } else {
        assert j in index[b[j]];
        var t :| 0 <= t < |index[a[i]]| && index[a[i]][t] == j;
        assert row[t] == (k, j);
      }
    }
    forall t | 0 <= t < |p + row|
      ensures (p + row)[t].0 < i + 1 && (p + row)[t].1 < |b| && a[(p + row)[t].0] == b[(p + row)[t].1]
    {
      if t < |p| {
        assert (p + row)[t] == p[t];
      } else {
        assert (p + row)[t] == row[t - |p|] == (i, index[a[i]][t - |p|]);
      }
    }
  }

  /** Row by row and along each row, so each pair is listed once. */
  ghost predicate RowByRow(p: seq<Pair>) {
    forall t, u | 0 <= t < u < |p| :: p[t].0 < p[u].0 || (p[t].0 == p[u].0 && p[t].1 < p[u].1)
  }

  lemma RowInOrder(p: seq<Pair>, i: nat, indices: seq<nat>)
    requires RowByRow(p) && (forall t | 0 <= t < |p| :: p[t].0 < i) && forall t, u | 0 <= t < u < |indices| :: indices[t] < indices[u]
    ensures RowByRow(p + Row(i, indices))
  {
  }

  method MatchPairs(a: seq<Block>, b: seq<Block>, index: map<string, seq<nat>>) returns (pairs: seq<Pair>)
    requires Indexed(Keys(b), |b|, index) && InOrder(index)
    ensures AllMatches(Keys(a), Keys(b), pairs) && RowByRow(pairs)
  {
    pairs := [];
    for i := 0 to |a|
      invariant MatchesOf(Keys(a), Keys(b), i, pairs) && RowByRow(pairs)
    {
      RowAdded(Keys(a), Keys(b), index, i, pairs);
      if a[i].orderKey in index {
        RowInOrder(pairs, i, index[a[i].orderKey]);
        var indices := index[a[i].orderKey];
        ghost var before := pairs;
        for t := 0 to |indices|
          invariant pairs == before + Row(i, indices[..t])
        {
          assert indices[..t + 1] == indices[..t] + [indices[t]];
          pairs := pairs + [(i, indices[t])];
        }
        assert indices[..|indices|] == indices;
      } else {
        assert pairs + [] == pairs;
      }
    }
  }

  // ----- The hash path

  lemma SortedMatches(a: seq<string>, b: seq<string>, p: seq<Pair>)
    requires AllMatches(a, b, p)
    ensures AllMatches(a, b, SortBy(PairLe, p)) && Sorted(PairLe, SortBy(PairLe, p))
  {
    PairOrdering();
    SortBySorts(PairLe, p);
    SortByMembers(PairLe, p);
    var s := SortBy(PairLe, p);
    forall t | 0 <= t < |s|
      ensures s[t].0 < |a| && s[t].1 < |b| && a[s[t].0] == b[s[t].1]
    {
      assert s[t] in p;
    }
  }

  /** Pairs collected last first, each a match, turn into an alignment. */
  lemma ReversedChain(a: seq<string>, b: seq<string>, chain: seq<Pair>)
    requires Chain(chain)
    requires forall t | 0 <= t < |chain| :: chain[t].0 < |a| && chain[t].1 < |b| && a[chain[t].0] == b[chain[t].1]
    ensures Alignment(a, b, Reverse(chain)) && |Reverse(chain)| == |chain|
  {
    var r := Reverse(chain);
    if chain != [] { ReverseAt(chain, 0); }
    forall t | 0 <= t < |r|
      ensures r[t] == chain[|chain| - 1 - t]
    {
      ReverseAt(chain, t);
    }
  }

  /** No alignment is longer than the number of tails. */
  lemma TailsBound(a: seq<string>, b: seq<string>, p: seq<Pair>, rank: seq<nat>, tails: seq<nat>, m: seq<(nat, nat)>)
    requires AllMatches(a, b, p) && Sorted(PairLe, p) && |rank| == |p|
    requires RanksOk(p, rank, tails) && RanksGrow(p, rank) && Alignment(a, b, m)
    ensures |m| <= |tails|
  {
    if m != [] {
      forall t | 0 <= t < |m| ensures m[t] in p {
        assert (m[t].0, m[t].1) in p;
      }
      var q := RankBounds(p, rank, m, |m| - 1);
    }
  }

  /** The patience pass and its reconstruction over the sorted match pairs. */
  method HashPath(a: seq<string>, b: seq<string>, sorted: seq<Pair>) returns (result: seq<(nat, nat)>)
    requires AllMatches(a, b, sorted) && Sorted(PairLe, sorted) && sorted != []
    ensures Alignment(a, b, result) && |result| == LcsLength(a, b)
  {
    var prev := new int[|sorted|](_ => -1);
    var tails, tailsIdx;
    ghost var rank;
    tails, tailsIdx, rank := Build(sorted, prev);
    TailsBound(a, b, sorted, rank, tails, Longest(a, b, |a|, |b|));
    var cur := if tails == [] then -1 else tailsIdx[|tails| - 1];
    var chain := Follow(sorted, prev[..], cur, rank);
    forall t | 0 <= t < |chain|
      ensures chain[t].0 < |a| && chain[t].1 < |b| && a[chain[t].0] == b[chain[t].1]
    {
      assert chain[t] in sorted;
    }
    ReversedChain(a, b, chain);
    result := Reverse(chain);
    AlignmentBound(a, b, result);
  }

  // ----- The dynamic-programming path

  ghost predicate TableDone(a: seq<string>, b: seq<string>, dp: array2<nat>, rows: nat)
    reads dp
  {
    && dp.Length0 == |a| + 1 && dp.Length1 == |b| + 1
    && (forall i: nat, j: nat | i < rows && i <= |a| && j <= |b| :: dp[i, j] == L(a, b, i, j))
  }

  /** The first column, which no row of the loop writes. */
  ghost predicate ZeroColumn(dp: array2<nat>)
    requires dp.Length1 > 0
    reads dp
  {
    forall i | 0 <= i < dp.Length0 :: dp[i, 0] == 0
  }

  method FillRow(a: seq<string>, b: seq<string>, dp: array2<nat>, i: nat)
    requires 0 < i <= |a| && TableDone(a, b, dp, i) && ZeroColumn(dp)
    modifies dp
    ensures TableDone(a, b, dp, i + 1) && ZeroColumn(dp)
  {
    for j := 1 to |b| + 1
      invariant TableDone(a, b, dp, i) && ZeroColumn(dp)
      invariant forall j': nat | j' < j :: dp[i, j'] == L(a, b, i, j')
    {
      assert dp[i - 1, j] == L(a, b, i - 1, j) && dp[i - 1, j - 1] == L(a, b, i - 1, j - 1);
      assert dp[i, j - 1] == L(a, b, i, j - 1);
      if a[i - 1] == b[j - 1] {
        dp[i, j] := dp[i - 1, j - 1] + 1;
      } else {
        dp[i, j] := Max(dp[i - 1, j], dp[i, j - 1]);
      }
    }
  }

  method FillTable(a: seq<string>, b: seq<string>) returns (dp: array2<nat>)
    ensures TableDone(a, b, dp, |a| + 1)
  {
    dp := new nat[|a| + 1, |b| + 1]((_, _) => 0);
    for i := 1 to |a| + 1
      invariant TableDone(a, b, dp, i) && ZeroColumn(dp)
    {
      FillRow(a, b, dp, i);
    }
  }

  /** Matches collected last first while walking back over the table. */
  ghost predicate Collected(a: seq<string>, b: seq<string>, i: nat, j: nat, chain: seq<Pair>) {
    && i <= |a| && j <= |b| && Chain(chain)
    && (forall t | 0 <= t < |chain| ::
      i <= chain[t].0 < |a| && j <= chain[t].1 < |b| && a[chain[t].0] == b[chain[t].1])
    && |chain| + L(a, b, i, j) == LcsLength(a, b)
  }

  lemma CollectedPush(a: seq<string>, b: seq<string>, i: nat, j: nat, chain: seq<Pair>)
    requires Collected(a, b, i, j, chain) && i > 0 && j > 0 && a[i - 1] == b[j - 1]
    ensures Collected(a, b, i - 1, j - 1, chain + [(i - 1, j - 1)])
  {
  }

  method LcsByOrderKeyDp(a: seq<string>, b: seq<string>) returns (result: seq<(nat, nat)>)
    ensures Alignment(a, b, result) && |result| == LcsLength(a, b)
  {
    var dp := FillTable(a, b);
    var matches: seq<Pair> := [];
    var i: nat, j: nat := |a|, |b|;
    while i > 0 && j > 0
      invariant TableDone(a, b, dp, |a| + 1)
      invariant Collected(a, b, i, j, matches)
      decreases i + j
    {
      if a[i - 1] == b[j - 1] {
        CollectedPush(a, b, i, j, matches);
        matches := matches + [(i - 1, j - 1)];
        i, j := i - 1, j - 1;
      } else if dp[i - 1, j] >= dp[i, j - 1] {
        i := i - 1;
      } else {
        j := j - 1;
      }
    }
    ReversedChain(a, b, matches);
    result := Reverse(matches);
  }

  /**
   The alignment of two block lists. Both paths return a longest one, so the density switch
   between them never changes how many blocks align.
   */
  method LcsByOrderKey(a: seq<Block>, b: seq<Block>) returns (result: seq<(nat, nat)>)
    ensures Alignment(Keys(a), Keys(b), result)
    ensures |result| == LcsLength(Keys(a), Keys(b))
  {
    var n, m := |a|, |b|;
    if n == 0 || m == 0 {
      return [];
    }
    var bIndex := BuildIndex(b);
    var pairs := MatchPairs(a, b, bIndex);
    if pairs == [] {
      NoMatches(Keys(a), Keys(b), n, m);
      return [];
    }
    var nm := n * m;
    if nm > 4096 && |pairs| > nm / 4 {
      result := LcsByOrderKeyDp(Keys(a), Keys(b));
      return;
    }
    SortedMatches(Keys(a), Keys(b), pairs);
    result := HashPath(Keys(a), Keys(b), SortBy(PairLe, pairs));
  }

  lemma {:induction false} NoMatches(a: seq<string>, b: seq<string>, i: nat, j: nat)
    requires AllMatches(a, b, []) && i <= |a| && j <= |b|
    ensures L(a, b, i, j) == 0
    decreases i + j
  {
    if i > 0 && j > 0 {
      assert a[i - 1] != b[j - 1];
      NoMatches(a, b, i - 1, j);
      NoMatches(a, b, i, j - 1);
    }
  }
}
